/**
 * The calls process_message makes to its collaborators (the chat service
 * and the local disk), and what running a sequence of them does when a
 * call may raise: the calls after the first one that raises are not made.
 */
module Actions {
  import opened Wrappers
  import opened Mime

  /** The comment of an upload: none, or the MD5 hex digest of the data (not computed here). */
  datatype Comment = NoComment | Md5Of(data: Option<Bytes>)

  /** One collaborator call. */
  datatype Action =
    | PostMessage(channel: string, text: string)                          // chat_postMessage
    | WriteFile(path: string, data: Option<Bytes>)                        // open(path, 'wb').write(data)
    | UploadFile(channel: string, filename: string, file: string, comment: Comment)  // files_upload
    | RemoveFile(path: string)                                            // os.remove

  /** What the handler prints when it gives up on a message. */
  datatype Error =
    | StringPatternOnBytes              // re.findall with a str pattern on bytes
    | CallFailed(step: nat, call: Action)

  /** The calls made, in order, and the error that stopped them, if any. */
  datatype Trace = Trace(attempted: seq<Action>, error: Option<Error>)

  /**
   * Whether the call at position n of the collaborators' history raises.
   * `failing` stands for the outside world (network and disk faults);
   * writing or hashing None raises a TypeError whatever the world does.
   */
  predicate Raises(failing: set<nat>, n: nat, a: Action) {
    n in failing
    || (a.WriteFile? && a.data.None?)
    || (a.UploadFile? && a.comment == Md5Of(None))
  }

  /** No call of the plan raises, the first made at position n. */
  predicate AllSucceed(plan: seq<Action>, n: nat, failing: set<nat>) {
    forall i :: 0 <= i < |plan| ==> !Raises(failing, n + i, plan[i])
  }

  /**
   * The calls of plan made from position n on: each in turn, stopping after the
   * first that raises; the error is that call.
   */
  function Run(plan: seq<Action>, n: nat, failing: set<nat>): Trace
    decreases |plan|
  {
    if plan == [] then Trace([], None)
    else if Raises(failing, n, plan[0]) then Trace([plan[0]], Some(CallFailed(n, plan[0])))
    else
      var t := Run(plan[1..], n + 1, failing);
      Trace([plan[0]] + t.attempted, t.error)
  }

  /** Run makes the calls of a prefix of the plan, and all of them when there is no error. */
  lemma {:induction false} RunIsPrefix(plan: seq<Action>, n: nat, failing: set<nat>)
    decreases |plan|
    ensures var t := Run(plan, n, failing);
            && |t.attempted| <= |plan| && t.attempted == plan[..|t.attempted|]
            && (t.error.None? ==> t.attempted == plan)
  {
    if plan != [] && !Raises(failing, n, plan[0]) {
      RunIsPrefix(plan[1..], n + 1, failing);
      var t := Run(plan[1..], n + 1, failing);
      assert plan[..|t.attempted| + 1] == [plan[0]] + plan[1..][..|t.attempted|];
    }
  }

  /** Run ends without an error exactly when no call of the plan raises. */
  lemma {:induction false} RunSucceeds(plan: seq<Action>, n: nat, failing: set<nat>)
    decreases |plan|
    ensures Run(plan, n, failing).error.None? <==> AllSucceed(plan, n, failing)
  {
    if plan != [] && !Raises(failing, n, plan[0]) {
      RunSucceeds(plan[1..], n + 1, failing);
      assert forall i :: 1 <= i < |plan| ==> plan[i] == plan[1..][i - 1];
      if AllSucceed(plan[1..], n + 1, failing) {
        forall i | 0 <= i < |plan| ensures !Raises(failing, n + i, plan[i]) {
          if i > 0 {
            assert !Raises(failing, (n + 1) + (i - 1), plan[1..][i - 1]);
          }
        }
      }
    }
  }

  /**
   * When Run stops with an error, the error is its last call, that call raises,
   * and every call before it went through.
   */
  lemma {:induction false} RunStopsAtFirstFailure(plan: seq<Action>, n: nat, failing: set<nat>)
    decreases |plan|
    ensures var t := Run(plan, n, failing);
            t.error.Some? ==>
              var k := |t.attempted| - 1;
              && 0 <= k < |plan|
              && t.error == Some(CallFailed(n + k, plan[k]))
              && Raises(failing, n + k, plan[k])
              && AllSucceed(plan[..k], n, failing)
  {
    if plan != [] && !Raises(failing, n, plan[0]) {
      RunStopsAtFirstFailure(plan[1..], n + 1, failing);
      RunIsPrefix(plan[1..], n + 1, failing);
      var t := Run(plan[1..], n + 1, failing);
      if t.error.Some? {
        var k := |t.attempted|;
        assert plan[k] == plan[1..][k - 1];
        assert plan[..k] == [plan[0]] + plan[1..][..k - 1];
        forall i | 0 <= i < k ensures !Raises(failing, n + i, plan[..k][i]) {
          if i > 0 {
            assert plan[..k][i] == plan[1..][..k - 1][i - 1];
          }
        }
      }
    }
  }

  /** Running p then q is running p, and, when p went through, q from where p ended. */
  lemma {:induction false} RunAppend(p: seq<Action>, q: seq<Action>, n: nat, failing: set<nat>)
    decreases |p|
    ensures Run(p + q, n, failing) ==
            if Run(p, n, failing).error.Some? then Run(p, n, failing)
            else Trace(p + Run(q, n + |p|, failing).attempted, Run(q, n + |p|, failing).error)
  {
    if p == [] {
      assert p + q == q;
    } else {
      var h := p[0];
      assert (p + q)[0] == h;
      assert (p + q)[1..] == p[1..] + q;
      if !Raises(failing, n, h) {
        RunAppend(p[1..], q, n + 1, failing);
        assert [h] + p[1..] == p;
      }
    }
  }

  /** The call at position k that raises first is the last call made, and the error. */
  lemma RunFailsAt(plan: seq<Action>, n: nat, failing: set<nat>, k: nat)
    requires k < |plan| && AllSucceed(plan[..k], n, failing) && Raises(failing, n + k, plan[k])
    ensures Run(plan, n, failing) == Trace(plan[..k + 1], Some(CallFailed(n + k, plan[k])))
  {
    RunAppend(plan[..k], plan[k..], n, failing);
    assert plan[..k] + plan[k..] == plan;
    RunSucceeds(plan[..k], n, failing);
    RunIsPrefix(plan[..k], n, failing);
    assert plan[k..][0] == plan[k];
    assert plan[..k] + [plan[k]] == plan[..k + 1];
  }


  /** Once a prefix of the plan has failed, the rest of the plan is never started. */
  lemma RunErrorStops(plan: seq<Action>, n: nat, failing: set<nat>, i: nat)
    requires i <= |plan| && Run(plan[..i], n, failing).error.Some?
    ensures Run(plan, n, failing) == Run(plan[..i], n, failing)
  {
    RunAppend(plan[..i], plan[i..], n, failing);
    assert plan[..i] + plan[i..] == plan;
  }

  /** After a plan that went through, the next plan runs from where it ended. */
  lemma RunThen(p: seq<Action>, q: seq<Action>, n: nat, failing: set<nat>)
    requires Run(p, n, failing).error.None?
    ensures Run(p + q, n, failing) ==
            Trace(p + Run(q, n + |p|, failing).attempted, Run(q, n + |p|, failing).error)
  {
    RunAppend(p, q, n, failing);
    RunIsPrefix(p, n, failing);
  }




  /** Running two calls. */
  lemma RunPair(a: Action, b: Action, n: nat, failing: set<nat>)
    ensures Run([a, b], n, failing) ==
            if Raises(failing, n, a) then Trace([a], Some(CallFailed(n, a)))
            else if Raises(failing, n + 1, b) then Trace([a, b], Some(CallFailed(n + 1, b)))
            else Trace([a, b], None)
  {
    assert [a, b][0] == a && [a, b][1..] == [b];
    assert [b][0] == b && [b][1..] == [];
    if !Raises(failing, n, a) {
      assert Run([a, b], n, failing) ==
             Trace([a] + Run([b], n + 1, failing).attempted, Run([b], n + 1, failing).error);
      if !Raises(failing, n + 1, b) {
        assert Run([b], n + 1, failing) == Trace([b], None);
        assert [a] + [b] == [a, b];
      }
    }
  }

  /** Running three calls: the first, then the other two. */
  lemma RunTriple(a: Action, b: Action, c: Action, n: nat, failing: set<nat>)
    ensures Run([a, b, c], n, failing) ==
            if Raises(failing, n, a) then Trace([a], Some(CallFailed(n, a)))
            else Trace([a] + Run([b, c], n + 1, failing).attempted, Run([b, c], n + 1, failing).error)
  {
    assert [a, b, c][1..] == [b, c];
  }

  /** A plan that has failed is not continued by whatever follows it. */
  lemma RunStopsEarly(p: seq<Action>, q: seq<Action>, n: nat, failing: set<nat>)
    requires Run(p, n, failing).error.Some?
    ensures Run(p + q, n, failing) == Run(p, n, failing)
  {
    RunAppend(p, q, n, failing);
  }

  /** Running one call. */
  lemma RunSingle(a: Action, n: nat, failing: set<nat>)
    ensures Run([a], n, failing) ==
            Trace([a], if Raises(failing, n, a) then Some(CallFailed(n, a)) else None)
  {
    assert [a][0] == a && [a][1..] == [];
  }

  /**
   * A history h1 that grew from h0 by the calls of p, all of which went
   * through, then grew to h2 by the calls of q: it grew by the calls of p + q.
   */
  lemma HistoryThen(h0: seq<Action>, h1: seq<Action>, h2: seq<Action>, p: seq<Action>, q: seq<Action>,
                    failing: set<nat>)
    requires Run(p, |h0|, failing).error.None? && h1 == h0 + Run(p, |h0|, failing).attempted
    requires h2 == h1 + Run(q, |h1|, failing).attempted
    ensures h2 == h0 + Run(p + q, |h0|, failing).attempted
    ensures Run(p + q, |h0|, failing).error == Run(q, |h1|, failing).error
  {
    RunIsPrefix(p, |h0|, failing);
    assert h1 == h0 + p;
    RunThen(p, q, |h0|, failing);
    assert h2 == h0 + (p + Run(q, |h1|, failing).attempted);
  }

  /** A history that grew by the calls of p up to its error grew by the calls of p + q. */
  lemma HistoryStops(h0: seq<Action>, h: seq<Action>, p: seq<Action>, q: seq<Action>, failing: set<nat>)
    requires Run(p, |h0|, failing).error.Some? && h == h0 + Run(p, |h0|, failing).attempted
    ensures Run(p + q, |h0|, failing) == Run(p, |h0|, failing)
    ensures h == h0 + Run(p + q, |h0|, failing).attempted
  {
    RunStopsEarly(p, q, |h0|, failing);
  }

  /**
   * A stage of a loop: the history h1 holds the calls of plan up to i, all
   * gone through, and then grew to h2 by running the calls from i to j. Either
   * they all went through and the history holds the plan up to j, or the
   * history is that of the whole plan, which ends with the stage's error.
   */
  lemma BlockStep(h0: seq<Action>, h1: seq<Action>, h2: seq<Action>, plan: seq<Action>, i: nat, j: nat,
                  failing: set<nat>)
    requires i <= j <= |plan| && Run(plan[..i], |h0|, failing).error.None? && h1 == h0 + plan[..i]
    requires h2 == h1 + Run(plan[i..j], |h1|, failing).attempted
    ensures Run(plan[i..j], |h1|, failing).error.None? ==>
              Run(plan[..j], |h0|, failing).error.None? && h2 == h0 + plan[..j]
    ensures Run(plan[i..j], |h1|, failing).error.Some? ==>
              h2 == h0 + Run(plan, |h0|, failing).attempted &&
              Run(plan, |h0|, failing).error == Run(plan[i..j], |h1|, failing).error
  {
    RunIsPrefix(plan[..i], |h0|, failing);
    assert plan[..j] == plan[..i] + plan[i..j];
    HistoryThen(h0, h1, h2, plan[..i], plan[i..j], failing);
    if Run(plan[i..j], |h1|, failing).error.None? {
      RunIsPrefix(plan[..j], |h0|, failing);
    } else {
      RunErrorStops(plan, |h0|, failing, j);
    }
  }

  /** BlockStep for a single call: the history grew by the call at i, which raised or not. */
  lemma CallStep(h0: seq<Action>, h1: seq<Action>, h2: seq<Action>, plan: seq<Action>, i: nat,
                 failing: set<nat>)
    requires i < |plan| && Run(plan[..i], |h0|, failing).error.None? && h1 == h0 + plan[..i]
    requires h2 == h1 + [plan[i]]
    ensures !Raises(failing, |h1|, plan[i]) ==>
              Run(plan[..i + 1], |h0|, failing).error.None? && h2 == h0 + plan[..i + 1]
    ensures Raises(failing, |h1|, plan[i]) ==>
              h2 == h0 + Run(plan, |h0|, failing).attempted &&
              Run(plan, |h0|, failing).error == Some(CallFailed(|h1|, plan[i]))
  {
    assert plan[i..i + 1] == [plan[i]];
    RunSingle(plan[i], |h1|, failing);
    BlockStep(h0, h1, h2, plan, i, i + 1, failing);
  }

  /** A loop that got through the whole plan: the history holds all of it, without error. */
  lemma LoopDone(h0: seq<Action>, h: seq<Action>, plan: seq<Action>, failing: set<nat>)
    requires Run(plan[..|plan|], |h0|, failing).error.None? && h == h0 + plan[..|plan|]
    ensures h == h0 + Run(plan, |h0|, failing).attempted && Run(plan, |h0|, failing).error.None?
  {
    assert plan[..|plan|] == plan;
    RunIsPrefix(plan, |h0|, failing);
  }
}
