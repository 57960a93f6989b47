/** What several modules share. */
module Wrappers {
  datatype Option<T> = None | Some(value: T)

  lemma SubsetSize<T>(a: set<T>, b: set<T>)
    requires a <= b
    ensures |a| <= |b|
  {
    if a != {} {
      var x :| x in a;
      SubsetSize(a - {x}, b - {x});
    }
  }

  function Decimal(n: nat): (s: string)
    ensures |s| > 0
  {
    var digit := ['0' + (n % 10) as char];
    if n < 10 then digit else Decimal(n / 10) + digit
  }

  lemma {:induction false} DecimalInjective(a: nat, b: nat)
    requires Decimal(a) == Decimal(b)
    ensures a == b
  {
    var s := Decimal(a);
    assert s[|s| - 1] == '0' + (a % 10) as char && s[|s| - 1] == '0' + (b % 10) as char;
    assert a % 10 == b % 10;
    assert a < 10 <==> |s| == 1;
    assert b < 10 <==> |s| == 1;
    if a >= 10 {
      assert s[..|s| - 1] == Decimal(a / 10) && s[..|s| - 1] == Decimal(b / 10);
      DecimalInjective(a / 10, b / 10);
    }
  }

  // ---- what has been the case since an event ----

  /** Some event has opened a period, and none since has closed it. `run` gives the
      state that a run leads to. */
  ghost predicate Since<S, E>(run: seq<E> -> S, es: seq<E>, opens: (S, E) -> bool, closes: (S, E) -> bool) {
    exists i :: 0 <= i < |es| && opens(run(es[..i]), es[i]) && NoneAfter(run, es, i + 1, closes)
  }

  ghost predicate NoneAfter<S, E>(run: seq<E> -> S, es: seq<E>, from: nat, closes: (S, E) -> bool) {
    forall j :: from <= j < |es| ==> !closes(run(es[..j]), es[j])
  }

  lemma NoneMore<S, E>(run: seq<E> -> S, es: seq<E>, e: E, from: nat, closes: (S, E) -> bool)
    requires from <= |es|
    ensures NoneAfter(run, es + [e], from, closes) <==> NoneAfter(run, es, from, closes) && !closes(run(es), e)
  {
    var more := es + [e];
    assert more[..|es|] == es && more[|es|] == e;
    forall j | 0 <= j < |es| ensures more[..j] == es[..j] && more[j] == es[j] {}
  }

  /** One event more opens the period, or leaves it open. */
  lemma SinceMore<S, E>(run: seq<E> -> S, es: seq<E>, e: E, opens: (S, E) -> bool, closes: (S, E) -> bool)
    ensures Since(run, es + [e], opens, closes)
            <==> opens(run(es), e) || (Since(run, es, opens, closes) && !closes(run(es), e))
  {
    var more := es + [e];
    assert more[..|es|] == es && more[|es|] == e;
    forall i | 0 <= i < |es|
      ensures more[..i] == es[..i] && more[i] == es[i]
      ensures NoneAfter(run, more, i + 1, closes) <==> NoneAfter(run, es, i + 1, closes) && !closes(run(es), e)
    {
      NoneMore(run, es, e, i + 1, closes);
    }
    hide NoneAfter;
    if Since(run, es, opens, closes) && !closes(run(es), e) {
      var i :| 0 <= i < |es| && opens(run(es[..i]), es[i]) && NoneAfter(run, es, i + 1, closes);
      assert opens(run(more[..i]), more[i]) && NoneAfter(run, more, i + 1, closes);
    }
    if opens(run(es), e) {
      NoneAtEnd(run, more, closes);
      assert opens(run(more[..|es|]), more[|es|]);
    }
    if Since(run, more, opens, closes) && !opens(run(es), e) {
      var i :| 0 <= i < |more| && opens(run(more[..i]), more[i]) && NoneAfter(run, more, i + 1, closes);
      assert opens(run(es[..i]), es[i]) && NoneAfter(run, es, i + 1, closes);
    }
  }

  lemma NoneAtEnd<S, E>(run: seq<E> -> S, es: seq<E>, closes: (S, E) -> bool)
    ensures NoneAfter(run, es, |es|, closes)
  {}

  /** The same for a period that may have been open from the start. */
  ghost predicate Lasting<S, E>(first: bool, run: seq<E> -> S, es: seq<E>, opens: (S, E) -> bool,
                                closes: (S, E) -> bool) {
    (first && NoneAfter(run, es, 0, closes)) || Since(run, es, opens, closes)
  }

  lemma LastingMore<S, E>(first: bool, run: seq<E> -> S, es: seq<E>, e: E, opens: (S, E) -> bool,
                          closes: (S, E) -> bool)
    ensures Lasting(first, run, es + [e], opens, closes)
            <==> opens(run(es), e) || (Lasting(first, run, es, opens, closes) && !closes(run(es), e))
  {
    SinceMore(run, es, e, opens, closes);
    NoneMore(run, es, e, 0, closes);
    hide Since, NoneAfter;
  }
}
