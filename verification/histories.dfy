/** What every history of the two maintainers keeps: any interleaving of inserts,
    clocks and statements, stopped anywhere, over any number of runs. */
module Histories {
  import opened Wrappers
  import opened Calendar
  import opened Lifecycle
  import opened Horizon

  /** One statement: the database takes it, and the code had reason to issue it. */
  predicate Next(c: Catalog, s: Step, d: Catalog, kept: nat) {
    Accepts(c, s) && Issued(c, s, kept) && d == Apply(c, s)
  }

  /** A history: the states a database went through, and the statement between
      each two. It starts wherever the invariant holds, a migrated table say. */
  ghost predicate IsHistory(states: seq<Catalog>, steps: seq<Step>, kept: nat) {
    && |states| == |steps| + 1
    && Inv(states[0], kept)
    && forall i | 0 <= i < |steps| :: Next(states[i], steps[i], states[i + 1], kept)
  }

  lemma {:induction false} HistoryKeepsInv(states: seq<Catalog>, steps: seq<Step>, i: nat, kept: nat)
    requires IsHistory(states, steps, kept) && i <= |steps|
    ensures Inv(states[i], kept)
  {
    if i > 0 {
      HistoryKeepsInv(states, steps, i - 1, kept);
      assert Next(states[i - 1], steps[i - 1], states[i], kept);
      StepKeepsInv(states[i - 1], steps[i - 1], kept);
    }
  }

  lemma HistorySnoc(states: seq<Catalog>, steps: seq<Step>, s: Step, d: Catalog, kept: nat)
    requires IsHistory(states, steps, kept) && Next(states[|steps|], s, d, kept)
    ensures IsHistory(states + [d], steps + [s], kept)
  {
  }

  /** A week whose table this package dropped. */
  predicate Gone(c: Catalog, n: Name) {
    n in c.records && n !in c.attached && n !in c.standalone
  }

  /** What the past fixes: gone weeks stay gone, a written count and a stamp are
      never rewritten, records keep their bounds, nothing is un-inserted. */
  ghost predicate Evolves(c: Catalog, d: Catalog) {
    && c.clock <= d.clock && c.newest <= d.newest
    && forall n: Name ::
      && (Gone(c, n) ==> Gone(d, n))
      && (n in c.inserted ==> n in d.inserted && c.inserted[n] <= d.inserted[n])
      && (n in c.records ==>
            && n in d.records
            && d.records[n].from == c.records[n].from && d.records[n].to == c.records[n].to
            && (c.records[n].rows.Some? ==> d.records[n].rows == c.records[n].rows)
            && (c.records[n].droppedAt.Some? ==> d.records[n].droppedAt == c.records[n].droppedAt))
  }

  lemma StepEvolves(c: Catalog, s: Step, kept: nat)
    requires Inv(c, kept) && Accepts(c, s) && Issued(c, s, kept)
    ensures Evolves(c, Apply(c, s))
  {
    var d := Apply(c, s);
    forall n: Name ensures
      && (Gone(c, n) ==> Gone(d, n))
      && (n in c.inserted ==> n in d.inserted && c.inserted[n] <= d.inserted[n])
      && (n in c.records ==>
            && n in d.records
            && d.records[n].from == c.records[n].from && d.records[n].to == c.records[n].to
            && (c.records[n].rows.Some? ==> d.records[n].rows == c.records[n].rows)
            && (c.records[n].droppedAt.Some? ==> d.records[n].droppedAt == c.records[n].droppedAt))
    {
      assert NameOk(c, n, kept);
      if Subject(s) != Some(n) {
        ApplyFrame(c, s, n);
      } else if s.Record? && n in c.records {
        WeekNamesAgree(n, c.attached[n].from, c.attached[n].to, c.records[n].from, c.records[n].to);
      }
    }
  }

  lemma {:induction false} HistoryEvolves(states: seq<Catalog>, steps: seq<Step>, i: nat, j: nat, kept: nat)
    requires IsHistory(states, steps, kept) && i <= j <= |steps|
    ensures Evolves(states[i], states[j])
    decreases j
  {
    if i < j {
      HistoryEvolves(states, steps, i, j - 1, kept);
      HistoryKeepsInv(states, steps, j - 1, kept);
      assert Next(states[j - 1], steps[j - 1], states[j], kept);
      StepEvolves(states[j - 1], steps[j - 1], kept);
    }
  }

  // ------------------------------------------------------------- no orphans

  /** The names the resume query returns. */
  function Unfinished(c: Catalog): set<Name> {
    set n | n in c.records && c.records[n].droppedAt.None? && n !in c.attached
  }

  /** At every moment: a detached table still on disk has an open record the next
      run's query returns, a half detached partition has its record too, and a
      record whose table is already gone carries the exact count. */
  lemma NoOrphans(states: seq<Catalog>, steps: seq<Step>, i: nat, kept: nat)
    requires IsHistory(states, steps, kept) && i <= |steps|
    ensures var c := states[i];
      && (forall n | n in c.standalone :: n in Unfinished(c))
      && (forall n | n in c.attached && c.attached[n].pending :: Open(c, n))
      && (forall n | n in Unfinished(c) && n !in c.standalone ::
            n in c.inserted && c.records[n].rows == Some(c.inserted[n]))
  {
    var c := states[i];
    HistoryKeepsInv(states, steps, i, kept);
    forall n | n in c.standalone ensures n in Unfinished(c) {
      assert NameOk(c, n, kept);
    }
    forall n | n in c.attached && c.attached[n].pending ensures Open(c, n) {
      assert NameOk(c, n, kept);
    }
    forall n | n in Unfinished(c) && n !in c.standalone
      ensures n in c.inserted && c.records[n].rows == Some(c.inserted[n])
    {
      assert NameOk(c, n, kept);
    }
  }

  // ------------------------------------------------------- counts are final

  /** Once rows_dropped is written it is the number of rows ever inserted into
      that week, and neither number changes for the rest of the history. */
  lemma CountIsFinal(states: seq<Catalog>, steps: seq<Step>, i: nat, j: nat, n: Name, kept: nat)
    requires IsHistory(states, steps, kept) && i <= j <= |steps|
    requires n in states[i].records && states[i].records[n].rows.Some?
    ensures n in states[i].inserted && n in states[j].inserted && n in states[j].records
    ensures states[j].records[n].rows == states[i].records[n].rows == Some(states[j].inserted[n])
    ensures states[j].inserted[n] == states[i].inserted[n]
  {
    HistoryEvolves(states, steps, i, j, kept);
    HistoryKeepsInv(states, steps, i, kept);
    HistoryKeepsInv(states, steps, j, kept);
    assert NameOk(states[i], n, kept) && NameOk(states[j], n, kept);
  }

  // ------------------------------------------------- retention and horizon

  /** No week this package dropped is in the table again at any later moment, so the
      refusal for a returned week has nothing to refuse. Nor does any horizon run ask
      for it whose clock was read in no earlier week than any retention run's, and
      whose span is within what those runs' guards covered. */
  lemma DroppedWeekNeverReturns(states: seq<Catalog>, steps: seq<Step>, i: nat, j: nat, n: Name, kept: nat)
    requires IsHistory(states, steps, kept) && i < j <= |steps| && steps[i] == DropTable(n)
    ensures n !in states[j].attached && n !in states[j].standalone
    ensures forall now: Instant, span: nat, k: nat |
      WholeWeeks(span) && span <= kept && WeekStart(states[j].newest) <= WeekStart(now) :: WeekName(now, span, k) != n
  {
    HistoryKeepsInv(states, steps, i, kept);
    assert Next(states[i], steps[i], states[i + 1], kept);
    assert NameOk(states[i], n, kept);
    assert Gone(states[i + 1], n);
    HistoryEvolves(states, steps, i + 1, j, kept);
    assert Gone(states[j], n);
    HistoryKeepsInv(states, steps, j, kept);
    forall now: Instant, span: nat, k: nat |
      WholeWeeks(span) && span <= kept && WeekStart(states[j].newest) <= WeekStart(now)
      ensures WeekName(now, span, k) != n
    {
      FreshClockAsksForNoRecord(states[j], now, span, k, kept);
    }
  }

  /** However many maintainers take turns under the lock, a week is created once. */
  lemma WeeksAreCreatedOnce(states: seq<Catalog>, steps: seq<Step>, i: nat, j: nat, kept: nat)
    requires IsHistory(states, steps, kept) && i < j < |steps|
    requires steps[i].Create? && steps[j].Create?
    ensures PartitionName(steps[i].from) != PartitionName(steps[j].from)
  {
    hide PartitionName;
    var n := PartitionName(steps[i].from);
    assert Next(states[i], steps[i], states[i + 1], kept) && Next(states[j], steps[j], states[j + 1], kept);
    HistoryEvolves(states, steps, i + 1, j, kept);
    HistoryKeepsInv(states, steps, j, kept);
    assert n in states[i + 1].inserted && NameOk(states[j], n, kept);
  }

  // ------------------------------------------------------- live data is safe

  predicate TakesAway(s: Step, n: Name) {
    s == DetachStart(n) || s == DetachFinish(n) || s == DropTable(n)
  }

  /** Whatever takes a week out of the table, in a first run or a resumed one, the
      week ended long before the database's clock: the week holding that clock,
      and every one the horizon keeps behind it, is untouched. */
  lemma LiveDataIsSafe(states: seq<Catalog>, steps: seq<Step>, i: nat, n: Name, kept: nat)
    requires IsHistory(states, steps, kept) && i < |steps| && TakesAway(steps[i], n)
    ensures var c := states[i];
      && n in c.records
      && c.records[n].to <= c.clock + MINUTE - kept
      && (kept >= WEEK ==> c.records[n].to < c.clock && n != PartitionName(WeekStart(c.clock)))
      && (n in c.attached ==> c.attached[n].to == c.records[n].to)
  {
    HistoryKeepsInv(states, steps, i, kept);
    assert Next(states[i], steps[i], states[i + 1], kept);
    TakenWeekIsOld(states[i], steps[i], n, kept);
  }

  lemma TakenWeekIsOld(d: Catalog, s: Step, n: Name, kept: nat)
    requires Inv(d, kept) && Accepts(d, s) && Issued(d, s, kept) && TakesAway(s, n)
    ensures n in d.records && d.records[n].to <= Floor(d.clock + MINUTE, kept)
    ensures kept >= WEEK ==> d.records[n].to < d.clock && n != PartitionName(WeekStart(d.clock))
    ensures n in d.attached ==> d.attached[n].to == d.records[n].to
  {
    assert NameOk(d, n, kept);
    var r := d.records[n];
    if n in d.attached {
      WeekNamesAgree(n, d.attached[n].from, d.attached[n].to, r.from, r.to);
    }
    if kept >= WEEK {
      WeekStartHolds(d.clock);
      if n == PartitionName(WeekStart(d.clock)) {
        PartitionNameInjective(r.from, WeekStart(d.clock));
      }
    }
  }

  // ------------------------------------------------------------ conservation

  ghost function Pick(s: set<Name>): (n: Name)
    requires s != {}
    ensures n in s
  {
    var n :| n in s; n
  }

  ghost function Sum(s: set<Name>, f: Name -> nat): nat {
    if s == {} then 0 else f(Pick(s)) + Sum(s - {Pick(s)}, f)
  }

  lemma {:induction false} SumRemove(s: set<Name>, f: Name -> nat, n: Name)
    requires n in s
    ensures Sum(s, f) == f(n) + Sum(s - {n}, f)
  {
    var p := Pick(s);
    if p != n {
      SumRemove(s - {p}, f, n);
      SumRemove(s - {n}, f, p);
      assert s - {p} - {n} == s - {n} - {p};
    }
  }

  lemma {:induction false} SumOfSums(s: set<Name>, f: Name -> nat, g: Name -> nat, h: Name -> nat, k: Name -> nat)
    requires forall n | n in s :: f(n) == g(n) + h(n) + k(n)
    ensures Sum(s, f) == Sum(s, g) + Sum(s, h) + Sum(s, k)
  {
    if s != {} {
      SumOfSums(s - {Pick(s)}, f, g, h, k);
    }
  }

  lemma {:induction false} SumOfPart(s: set<Name>, part: set<Name>, f: Name -> nat)
    requires part <= s && forall n | n in s && n !in part :: f(n) == 0
    ensures Sum(s, f) == Sum(part, f)
  {
    if s != part {
      assert !(s <= part);
      var n :| n in s && n !in part;
      SumRemove(s, f, n);
      SumOfPart(s - {n}, part, f);
    }
  }

  function GoneWeeks(c: Catalog): set<Name> {
    set n | n in c.records && Gone(c, n)
  }

  function AttachedRows(c: Catalog): Name -> nat {
    n => if n in c.attached then c.attached[n].rows else 0
  }

  function StandaloneRows(c: Catalog): Name -> nat {
    n => if n in c.standalone then c.standalone[n] else 0
  }

  function DroppedRows(c: Catalog): Name -> nat {
    n => if Gone(c, n) && c.records[n].rows.Some? then c.records[n].rows.value else 0
  }

  function InsertedRows(c: Catalog): Name -> nat {
    n => if n in c.inserted then c.inserted[n] else 0
  }

  lemma PartsAreWeeks(d: Catalog, kept: nat)
    requires Inv(d, kept)
    ensures d.attached.Keys <= d.inserted.Keys && d.standalone.Keys <= d.inserted.Keys
    ensures GoneWeeks(d) <= d.inserted.Keys
  {
    forall n | n in d.attached || n in d.standalone || n in GoneWeeks(d) ensures n in d.inserted {
      assert NameOk(d, n, kept);
    }
  }

  /** Every row ever inserted is in an attached table, in a detached one, or in
      the rows_dropped of a record whose table is gone. */
  lemma RowsAreConserved(states: seq<Catalog>, steps: seq<Step>, i: nat, kept: nat)
    requires IsHistory(states, steps, kept) && i <= |steps|
    ensures var c := states[i];
      Sum(c.inserted.Keys, InsertedRows(c)) ==
        Sum(c.attached.Keys, AttachedRows(c)) + Sum(c.standalone.Keys, StandaloneRows(c)) +
        Sum(GoneWeeks(c), DroppedRows(c))
  {
    var c := states[i];
    var all := c.inserted.Keys;
    HistoryKeepsInv(states, steps, i, kept);
    forall n | n in all ensures InsertedRows(c)(n) == AttachedRows(c)(n) + StandaloneRows(c)(n) + DroppedRows(c)(n) {
      assert NameOk(c, n, kept);
    }
    PartsAreWeeks(c, kept);
    SumOfSums(all, InsertedRows(c), AttachedRows(c), StandaloneRows(c), DroppedRows(c));
    SumOfPart(all, c.attached.Keys, AttachedRows(c));
    SumOfPart(all, c.standalone.Keys, StandaloneRows(c));
    SumOfPart(all, GoneWeeks(c), DroppedRows(c));
  }
}
