/** How the extractors assemble their report: each step yields a piece of text or throws;
    the report is the first thrown error, or else the pieces concatenated in order
    (the `result += ...` accumulators, undone by the throw). */
module Collecting {
  import opened Wrappers

  /** The concatenation of `parts`, in order. */
  function Concat(parts: seq<string>): string
  {
    if |parts| == 0 then "" else Concat(parts[..|parts| - 1]) + parts[|parts| - 1]
  }

  /** The outcome of running the steps `rs` in order and stopping at the first failure. */
  function Collect<E>(rs: seq<Result<string, E>>): Result<string, E>
  {
    if |rs| == 0 then Success("")
    else match Collect(rs[..|rs| - 1])
      case Failure(e) => Failure(e)
      case Success(s) =>
        match rs[|rs| - 1]
        case Failure(e) => Failure(e)
        case Success(t) => Success(s + t)
  }

  /** One more step: the accumulated text grows by the step's text, or the step's error ends it. */
  lemma CollectStep<E>(rs: seq<Result<string, E>>, i: nat, acc: string)
    requires i < |rs|
    requires Collect(rs[..i]) == Success(acc)
    ensures Collect(rs[..i + 1]) == match rs[i] case Success(t) => Success(acc + t) case Failure(e) => Failure(e)
  {
    assert rs[..i + 1][..i] == rs[..i];
  }

  /** Once a prefix has failed, the later steps do not matter. */
  lemma {:induction false} CollectFailedPrefix<E>(rs: seq<Result<string, E>>, i: nat)
    requires i <= |rs|
    requires Collect(rs[..i]).Failure?
    ensures Collect(rs) == Collect(rs[..i])
    decreases |rs| - i
  {
    if i < |rs| {
      assert rs[..i + 1][..i] == rs[..i];
      CollectFailedPrefix(rs, i + 1);
    } else {
      assert rs[..i] == rs;
    }
  }

  /** When every step succeeds, the outcome is all their texts, in order. */
  lemma {:induction false} CollectAllSucceed<E>(rs: seq<Result<string, E>>)
    requires forall k :: 0 <= k < |rs| ==> rs[k].Success?
    ensures Collect(rs) == Success(Concat(seq(|rs|, k requires 0 <= k < |rs| => rs[k].value)))
  {
    if |rs| > 0 {
      var front := rs[..|rs| - 1];
      CollectAllSucceed(front);
      var texts := seq(|rs|, k requires 0 <= k < |rs| => rs[k].value);
      assert texts[..|rs| - 1] == seq(|front|, k requires 0 <= k < |front| => front[k].value);
    }
  }

  /** The first failing step decides the outcome. */
  lemma {:induction false} CollectFirstFailure<E>(rs: seq<Result<string, E>>, i: nat)
    requires i < |rs| && rs[i].Failure?
    requires forall k :: 0 <= k < i ==> rs[k].Success?
    ensures Collect(rs) == rs[i]
  {
    var front := rs[..i];
    CollectAllSucceed(front);
    CollectStep(rs, i, Concat(seq(|front|, k requires 0 <= k < |front| => front[k].value)));
    CollectFailedPrefix(rs, i + 1);
  }

  /** The outcome is a success exactly when every step succeeds. */
  lemma {:induction false} CollectSucceeds<E>(rs: seq<Result<string, E>>)
    ensures Collect(rs).Success? <==> forall k :: 0 <= k < |rs| ==> rs[k].Success?
  {
    if |rs| > 0 {
      var front := rs[..|rs| - 1];
      CollectSucceeds(front);
      assert forall k :: 0 <= k < |front| ==> front[k] == rs[k];
    }
  }

  /** Two successful steps give their two texts, in order. */
  lemma CollectTwo<E>(rs: seq<Result<string, E>>)
    requires |rs| == 2 && rs[0].Success? && rs[1].Success?
    ensures Collect(rs) == Success(rs[0].value + rs[1].value)
  {
    assert rs[..1][..0] == [];
    assert Collect(rs[..1]) == Success("" + rs[0].value);
    assert "" + rs[0].value == rs[0].value;
  }
}
