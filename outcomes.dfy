/** What validate_and_clean_data returns for a whole list of parsed entries
    (lines 310-391), as a fold over the list, and what that result holds: the
    cleaned complete entries in their order, one missing-fields warning per
    incomplete entry, and no result at all once a complete entry makes a
    step raise. */
module Outcomes {
  import opened Wrappers
  import opened TaxCodes
  import opened Records
  import opened Cleaning
  import opened CleaningFacts

  /** The pair (valid_entries, warning_messages). */
  datatype Outcome = Outcome(valid: seq<Entry>, warnings: seq<Warning>)

  /** One pass of the loop on what the earlier passes produced: the
      incomplete entry is reported and skipped (lines 321-325), the complete
      one cleaned and kept (lines 328-389). None stands for the exception a
      complete entry the steps cannot handle raises. */
  function Step(o: Outcome, e: Entry, rates: Rates, codes: CodeTable): Option<Outcome> {
    if !HasRequired(e) then
      Some(Outcome(o.valid, o.warnings + [MissingFields(DescriptionOf(e), Missing(e))]))
    else if !Processable(e, rates) then None
    else Some(Outcome(o.valid + [CleanedEntry(e, rates, codes)], o.warnings + CleanWarnings(e, rates, codes)))
  }

  /** The loop of lines 318-389 over the entries, pass by pass. */
  function Validated(es: seq<Entry>, rates: Rates, codes: CodeTable): Option<Outcome>
    decreases |es|
  {
    if es == [] then Some(Outcome([], []))
    else match Validated(es[..|es| - 1], rates, codes)
      case None => None
      case Some(o) => Step(o, es[|es| - 1], rates, codes)
  }

  // ---------------------------------------------------------------------
  // Reference definitions

  /** No complete entry of the list makes a step raise. */
  predicate AllProcessable(es: seq<Entry>, rates: Rates) {
    forall i :: 0 <= i < |es| ==> Processable(es[i], rates)
  }

  /** The entries that carry every required field, in order. */
  function Complete(es: seq<Entry>): (r: seq<Entry>)
    ensures |r| <= |es|
    ensures forall e :: e in r ==> e in es && HasRequired(e)
    decreases |es|
  {
    if es == [] then []
    else
      var last := es[|es| - 1];
      Complete(es[..|es| - 1]) + (if HasRequired(last) then [last] else [])
  }

  /** Every entry of the list cleaned, in order. */
  function CleanedAll(es: seq<Entry>, rates: Rates, codes: CodeTable): (r: seq<Entry>)
    requires forall e :: e in es ==> HasRequired(e) && Processable(e, rates)
    ensures |r| == |es|
    decreases |es|
  {
    if es == [] then []
    else CleanedAll(es[..|es| - 1], rates, codes) + [CleanedEntry(es[|es| - 1], rates, codes)]
  }

  /** The number of missing-fields warnings. */
  function CountMissing(ws: seq<Warning>): (n: nat)
    ensures n <= |ws|
    decreases |ws|
  {
    if ws == [] then 0
    else CountMissing(ws[..|ws| - 1]) + (if ws[|ws| - 1].MissingFields? then 1 else 0)
  }

  /** The missing-fields warnings of a warning list, in order. */
  function MissingWarnings(ws: seq<Warning>): (r: seq<Warning>)
    ensures forall w :: w in r ==> w in ws && w.MissingFields?
    decreases |ws|
  {
    if ws == [] then []
    else
      var last := ws[|ws| - 1];
      MissingWarnings(ws[..|ws| - 1]) + (if last.MissingFields? then [last] else [])
  }

  /** The report lines 321-325 make of each incomplete entry, in order. */
  function MissingReports(es: seq<Entry>): (r: seq<Warning>)
    ensures |r| == |es| - |Complete(es)|
    decreases |es|
  {
    if es == [] then []
    else
      var last := es[|es| - 1];
      MissingReports(es[..|es| - 1]) + (if HasRequired(last) then [] else [MissingFields(DescriptionOf(last), Missing(last))])
  }

  // ---------------------------------------------------------------------
  // Properties of the fold

  /** One pass goes on exactly when its entry does not raise. */
  lemma StepSucceeds(o: Outcome, e: Entry, rates: Rates, codes: CodeTable)
    ensures Step(o, e, rates, codes).Some? <==> Processable(e, rates)
  {
  }

  lemma ValidatedSnoc(es: seq<Entry>, rates: Rates, codes: CodeTable)
    requires es != []
    ensures var r := Validated(es[..|es| - 1], rates, codes);
            Validated(es, rates, codes) == if r.None? then None else Step(r.value, es[|es| - 1], rates, codes)
  {
  }

  lemma AllProcessableSnoc(es: seq<Entry>, rates: Rates)
    requires es != []
    ensures AllProcessable(es, rates) <==>
            AllProcessable(es[..|es| - 1], rates) && Processable(es[|es| - 1], rates)
  {
    var init := es[..|es| - 1];
    assert forall i :: 0 <= i < |init| ==> init[i] == es[i];
  }

  /** The loop runs to its end exactly when no complete entry raises. */
  lemma {:induction false} ValidatedSucceeds(es: seq<Entry>, rates: Rates, codes: CodeTable)
    ensures Validated(es, rates, codes).Some? <==> AllProcessable(es, rates)
    decreases |es|
  {
    if es != [] {
      var init := es[..|es| - 1];
      ValidatedSucceeds(init, rates, codes);
      ValidatedSnoc(es, rates, codes);
      AllProcessableSnoc(es, rates);
      var r := Validated(init, rates, codes);
      if r.Some? {
        StepSucceeds(r.value, es[|es| - 1], rates, codes);
      }
    }
  }

  /** The fold over one more entry is one more pass. */
  lemma ValidatedNext(es: seq<Entry>, i: nat, o: Outcome, rates: Rates, codes: CodeTable)
    requires i < |es| && Validated(es[..i], rates, codes) == Some(o)
    ensures Validated(es[..i + 1], rates, codes) == Step(o, es[i], rates, codes)
  {
    assert es[..i + 1][..i] == es[..i];
    ValidatedSnoc(es[..i + 1], rates, codes);
  }

  /** Once a pass raises, the whole loop does. */
  lemma ValidatedPrefixNone(es: seq<Entry>, j: nat, rates: Rates, codes: CodeTable)
    requires j <= |es| && Validated(es[..j], rates, codes).None?
    ensures Validated(es, rates, codes).None?
  {
    ValidatedSucceeds(es[..j], rates, codes);
    ValidatedSucceeds(es, rates, codes);
    var i :| 0 <= i < j && !Processable(es[..j][i], rates);
    assert es[..j][i] == es[i];
  }

  /** The cleaned entries of a complete list of processable entries. */
  lemma CompleteProcessable(es: seq<Entry>, rates: Rates)
    requires AllProcessable(es, rates)
    ensures forall e :: e in Complete(es) ==> HasRequired(e) && Processable(e, rates)
  {
    forall e | e in Complete(es)
      ensures HasRequired(e) && Processable(e, rates)
    {
      var i :| 0 <= i < |es| && es[i] == e;
    }
  }

  /** A complete entry that does not raise is cleaned and kept, with its
      warnings after the earlier ones. */
  lemma StepKeeps(o: Outcome, e: Entry, rates: Rates, codes: CodeTable)
    requires HasRequired(e) && Processable(e, rates)
    ensures Step(o, e, rates, codes)
         == Some(Outcome(o.valid + [CleanedEntry(e, rates, codes)], o.warnings + CleanWarnings(e, rates, codes)))
  {
  }

  /** An incomplete entry is skipped with one warning naming what it lacks. */
  lemma StepSkips(o: Outcome, e: Entry, rates: Rates, codes: CodeTable)
    requires !HasRequired(e)
    ensures Step(o, e, rates, codes)
         == Some(Outcome(o.valid, o.warnings + [MissingFields(DescriptionOf(e), Missing(e))]))
  {
  }

  lemma CleanedAllSnoc(es: seq<Entry>, e: Entry, rates: Rates, codes: CodeTable)
    requires forall x :: x in es ==> HasRequired(x) && Processable(x, rates)
    requires HasRequired(e) && Processable(e, rates)
    ensures CleanedAll(es + [e], rates, codes) == CleanedAll(es, rates, codes) + [CleanedEntry(e, rates, codes)]
  {
    assert (es + [e])[..|es + [e]| - 1] == es;
  }

  /** valid_entries is the complete entries, each cleaned, in their order. */
  lemma {:induction false} ValidatedValid(es: seq<Entry>, rates: Rates, codes: CodeTable)
    requires AllProcessable(es, rates)
    ensures Validated(es, rates, codes).Some?
    ensures (CompleteProcessable(es, rates);
             Validated(es, rates, codes).value.valid == CleanedAll(Complete(es), rates, codes))
    decreases |es|
  {
    CompleteProcessable(es, rates);
    if es != [] {
      var init, last := es[..|es| - 1], es[|es| - 1];
      AllProcessableSnoc(es, rates);
      ValidatedValid(init, rates, codes);
      ValidatedSnoc(es, rates, codes);
      CompleteProcessable(init, rates);
      var o := Validated(init, rates, codes).value;
      if HasRequired(last) {
        StepKeeps(o, last, rates, codes);
        assert Complete(es) == Complete(init) + [last];
        CleanedAllSnoc(Complete(init), last, rates, codes);
      } else {
        StepSkips(o, last, rates, codes);
        assert Complete(es) == Complete(init);
      }
    }
  }

  /** The warnings of one cleaned entry are none of them missing-fields
      warnings. */
  lemma {:induction false} NoMissingAmong(ws: seq<Warning>, e: Entry, rates: Rates, codes: CodeTable)
    requires HasRequired(e) && Processable(e, rates)
    requires forall w :: w in ws ==> Justified(e, rates, codes, w)
    ensures CountMissing(ws) == 0
    ensures MissingWarnings(ws) == []
    decreases |ws|
  {
    if ws != [] {
      assert ws[|ws| - 1] in ws;
      var init := ws[..|ws| - 1];
      assert forall w :: w in init ==> w in ws;
      NoMissingAmong(init, e, rates, codes);
    }
  }

  lemma {:induction false} CountMissingAppend(a: seq<Warning>, b: seq<Warning>)
    ensures CountMissing(a + b) == CountMissing(a) + CountMissing(b)
    decreases |b|
  {
    if b == [] {
      assert a + b == a;
    } else {
      var init := b[..|b| - 1];
      assert (a + b)[..|a + b| - 1] == a + init;
      CountMissingAppend(a, init);
    }
  }

  lemma {:induction false} MissingWarningsAppend(a: seq<Warning>, b: seq<Warning>)
    ensures MissingWarnings(a + b) == MissingWarnings(a) + MissingWarnings(b)
    decreases |b|
  {
    if b == [] {
      assert a + b == a;
    } else {
      var init, last := b[..|b| - 1], b[|b| - 1];
      var tail := if last.MissingFields? then [last] else [];
      assert (a + b)[..|a + b| - 1] == a + init;
      assert (a + b)[|a + b| - 1] == last;
      assert MissingWarnings(a + b) == MissingWarnings(a + init) + tail;
      assert MissingWarnings(b) == MissingWarnings(init) + tail;
      MissingWarningsAppend(a, init);
    }
  }

  /** One missing-fields warning per incomplete entry, and no other: the
      missing-fields warnings are the reports of the incomplete entries, in
      their order. */
  lemma {:induction false} ValidatedMissingCount(es: seq<Entry>, rates: Rates, codes: CodeTable)
    requires AllProcessable(es, rates)
    ensures Validated(es, rates, codes).Some?
    ensures CountMissing(Validated(es, rates, codes).value.warnings) == |es| - |Complete(es)|
    ensures MissingWarnings(Validated(es, rates, codes).value.warnings) == MissingReports(es)
    decreases |es|
  {
    ValidatedSucceeds(es, rates, codes);
    if es != [] {
      var init, last := es[..|es| - 1], es[|es| - 1];
      AllProcessableSnoc(es, rates);
      ValidatedMissingCount(init, rates, codes);
      ValidatedSnoc(es, rates, codes);
      var o := Validated(init, rates, codes).value;
      if HasRequired(last) {
        StepKeeps(o, last, rates, codes);
        assert Complete(es) == Complete(init) + [last];
        WarningsSound(last, rates, codes);
        NoMissingAmong(CleanWarnings(last, rates, codes), last, rates, codes);
        CountMissingAppend(o.warnings, CleanWarnings(last, rates, codes));
        MissingWarningsAppend(o.warnings, CleanWarnings(last, rates, codes));
      } else {
        StepSkips(o, last, rates, codes);
        assert Complete(es) == Complete(init);
        var w := MissingFields(DescriptionOf(last), Missing(last));
        CountMissingAppend(o.warnings, [w]);
        MissingWarningsAppend(o.warnings, [w]);
        assert CountMissing([w]) == 1 && MissingWarnings([w]) == [w] by {
          assert [w][..0] == [];
        }
      }
    }
  }

}
