/** Generated write wrappers: one primary, and mirrors that repeat its writes. */
module WriteMirrors {
  import opened Basics

  /** A primary-capable view of a database and the databases its writes are repeated on, in order. */
  datatype Writer = Writer(main: nat, mirrors: seq<nat>)

  /** How one database answers a write; no rows from a mirror is not a failure. */
  datatype Answer = Done | NoRows | Failed(cause: string)

  function Targets(w: Writer): seq<nat> {
    [w.main] + w.mirrors
  }

  /** The databases a list of writers reaches; missing writers are skipped. */
  function Reached(ws: seq<Option<Writer>>): seq<nat> {
    if ws == [] then []
    else Reached(ws[..|ws| - 1]) + if ws[|ws| - 1].Some? then Targets(ws[|ws| - 1].value) else []
  }

  function Present(ws: seq<Writer>): (os: seq<Option<Writer>>)
    ensures |os| == |ws|
  {
    seq(|ws|, i requires 0 <= i < |ws| => Some(ws[i]))
  }

  /** A copy that also writes wherever the given writers write. */
  method WithMirrors(w: Writer, ws: seq<Option<Writer>>) returns (copy: Writer)
    ensures Targets(copy) == Targets(w) + Reached(ws)
  {
    var mirrors := w.mirrors;
    for k := 0 to |ws|
      invariant mirrors == w.mirrors + Reached(ws[..k])
    {
      assert ws[..k + 1][..k] == ws[..k];
      if ws[k].Some? {
        mirrors := mirrors + [ws[k].value.main];
        mirrors := mirrors + ws[k].value.mirrors;
      }
    }
    assert ws[..|ws|] == ws;
    copy := Writer(w.main, mirrors);
  }

  /** Inside a transaction only the transaction is written to. */
  function WithTx(w: Writer, tx: nat): (copy: Writer)
    ensures Targets(copy) == [tx]
  {
    Writer(tx, [])
  }

  /** Writers reach what each of them reaches, in order: its own database and then its mirrors. */
  lemma {:induction false} ReachedConcat(a: seq<Option<Writer>>, b: seq<Option<Writer>>, w: Writer)
    ensures Reached(a + b) == Reached(a) + Reached(b)
    ensures Reached([Some(w)]) == [w.main] + w.mirrors && Reached([None]) == []
  {
    var one, none: seq<Option<Writer>> := [Some(w)], [None];
    assert one[..0] == none[..0] == [];
    if b == [] {
      assert a + b == a;
    } else {
      assert (a + b)[..|a + b| - 1] == a + b[..|b| - 1];
      ReachedConcat(a, b[..|b| - 1], w);
    }
  }

  /** Calls the mirrors one after the other, starting at position one of the trace, up to the first error other than no
      rows. */
  method Mirror(w: Writer, answers: nat -> Answer) returns (called: seq<nat>, err: Option<Answer>)
    ensures called <= w.mirrors
    ensures err.None? ==> called == w.mirrors && forall p: nat | 0 < p <= |called| :: !answers(p).Failed?
    ensures err.Some? ==>
      && called != [] && err.value == answers(|called|) && answers(|called|).Failed?
      && forall p: nat | 0 < p < |called| :: !answers(p).Failed?
  {
    called := [];
    while |called| < |w.mirrors|
      invariant |called| <= |w.mirrors| && called == w.mirrors[..|called|]
      invariant forall p: nat | 0 < p <= |called| :: !answers(p).Failed?
    {
      called := called + [w.mirrors[|called|]];
      var answer := answers(|called|);
      if !answer.Done? {
        if answer.NoRows? {
          continue;
        }
        return called, Some(answer);
      }
    }
    err := None;
  }

  /** A write: the primary first, then its mirrors in order. The trace of calls is a prefix of primary and mirrors; it
      stops early only where the primary does not succeed or at the first mirror answer that is an error other than no
      rows, which is the error reported. The primary's result is kept exactly when the primary succeeded. */
  method Write(w: Writer, answers: nat -> Answer) returns (trace: seq<nat>, kept: bool, err: Option<Answer>)
    ensures [w.main] <= trace <= Targets(w)
    ensures !answers(0).Done? ==> trace == [w.main] && err == Some(answers(0))
    ensures forall p: nat | 0 < p < |trace| - 1 :: !answers(p).Failed?
    ensures answers(0).Done? && |trace| < |Targets(w)| ==> answers(|trace| - 1).Failed?
    ensures answers(0).Done? ==> err == if answers(|trace| - 1).Failed? then Some(answers(|trace| - 1)) else None
    ensures kept <==> answers(0).Done?
  {
    if !answers(0).Done? {
      return [w.main], false, Some(answers(0));
    }
    var called;
    called, err := Mirror(w, answers);
    trace, kept := [w.main] + called, true;
  }
}
