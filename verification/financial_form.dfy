/**
 The manual-entry dialog for one quarterly record
 (src/components/dashboard/FinancialDataDialog.tsx): the form's initial
 values, the quarter selector's parsing of "YYYY-Tq" keys, and the
 create / edit / delete dispatch on submit. The table is a sequence of
 stored records; the database's error reply and the id it assigns are
 parameters.
 */
module FinancialForm {
  import opened Common
  import opened Decimal

  // ---------------------------------------------------------------- form

  /** The form state. `None` in `year` or `quarterNumber` is the NaN that
      `parseInt` yields on text without digits. */
  datatype Form = Form(
    companyId: string,
    year: Option<int>,
    quarterNumber: Option<int>,
    quarter: string,
    metrics: Metrics)

  /** Key `YYYY-Tq` of a manually entered quarter. */
  function ManualKey(year: int, q: int): string {
    IntToString(year) + "-T" + IntToString(q)
  }

  /** The number inputs' fields: every metric but earnings per share, which
      the form neither initialises nor shows. */
  predicate OnForm(f: Field) {
    f != LucroPorAcao
  }

  /** Initial value of one metric: `data?.field || 0`. */
  function InitialValue(data: Option<Indicator>, f: Field): Option<real> {
    if !OnForm(f) then None
    else if data.Some? then Some(Or(data.value.Get(f), 0.0))
    else Some(0.0)
  }

  /** Every field the form shows holds a number. */
  predicate MetricsFilled(form: Form) {
    forall f :: OnForm(f) ==> form.metrics.Get(f).Some?
  }

  /** The initial state: `data?.year || currentYear`,
      `data?.quarter_number || 1`, `data?.quarter || "<currentYear>-T1"` and
      `data?.field || 0` for every metric, so a stored zero and a missing
      value both start as 0. */
  function InitialForm(companyId: string, data: Option<Indicator>, currentYear: int): (r: Form)
    ensures r.companyId == companyId && MetricsFilled(r)
    ensures data.None? ==>
              && r.year == Some(currentYear) && r.quarterNumber == Some(1)
              && r.quarter == ManualKey(currentYear, 1)
    ensures data.Some? ==>
              && (data.value.year != 0 ==> r.year == Some(data.value.year))
              && (data.value.year == 0 ==> r.year == Some(currentYear))
              && (data.value.quarterNumber != 0 ==> r.quarterNumber == Some(data.value.quarterNumber))
              && (data.value.quarterNumber == 0 ==> r.quarterNumber == Some(1))
              && (data.value.quarter != "" ==> r.quarter == data.value.quarter)
              && (data.value.quarter == "" ==> r.quarter == ManualKey(currentYear, 1))
    ensures forall f :: OnForm(f) ==> (r.metrics.Get(f) == Some(0.0) <==> data.None? || !Truthy(data.value.Get(f)))
    ensures forall f :: OnForm(f) && data.Some? && Truthy(data.value.Get(f)) ==> r.metrics.Get(f) == data.value.Get(f)
    ensures r.metrics.lucroPorAcao.None?
  {
    var year := if data.Some? && data.value.year != 0 then data.value.year else currentYear;
    var q := if data.Some? && data.value.quarterNumber != 0 then data.value.quarterNumber else 1;
    var quarter := if data.Some? && data.value.quarter != "" then data.value.quarter else ManualKey(currentYear, 1);
    Form(companyId, Some(year), Some(q), quarter, MetricsOf(f => InitialValue(data, f)))
  }

  // ---------------------------------------------------------------- quarter selector

  /** The separator "-T" starts at index `i`. */
  predicate SepAt(s: string, i: int) {
    0 <= i && i + 1 < |s| && s[i] == '-' && s[i + 1] == 'T'
  }

  /** Index of the first separator at or after `from`. */
  function FindSep(s: string, from: nat): (r: Option<nat>)
    ensures r.Some? ==> from <= r.value && SepAt(s, r.value)
    ensures r.Some? ==> forall i :: from <= i < r.value ==> !SepAt(s, i)
    ensures r.None? ==> forall i :: from <= i ==> !SepAt(s, i)
    decreases |s| - from
  {
    if from + 1 >= |s| then None
    else if SepAt(s, from) then Some(from)
    else FindSep(s, from + 1)
  }

  /** The first two pieces of `s.split('-T')`; the second is `undefined`
      when there is no separator. */
  function SplitPieces(s: string): (r: (string, Option<string>))
    ensures r.1.None? <==> forall i :: !SepAt(s, i)
    ensures r.1.None? ==> r.0 == s
    ensures r.1.Some? ==> SepAt(s, |r.0|) && s[..|r.0|] == r.0 && forall i :: 0 <= i < |r.0| ==> !SepAt(s, i)
  {
    match FindSep(s, 0)
    case None => (s, None)
    case Some(i) =>
      var j := FindSep(s, i + 2);
      (s[..i], Some(if j.Some? then s[i + 2..j.value] else s[i + 2..]))
  }

  /** `handleQuarterChange`: the key is kept as typed, and year and quarter
      number are parsed from the text around the first separator; all
      other fields are left alone. */
  function HandleQuarterChange(form: Form, s: string): (r: Form)
    ensures r.quarter == s
    ensures r.companyId == form.companyId && r.metrics == form.metrics
    ensures (forall i :: !SepAt(s, i)) ==> r.quarterNumber.None? && r.year == ParseIntPrefix(s)
  {
    var (first, second) := SplitPieces(s);
    form.(quarter := s,
          year := ParseIntPrefix(first),
          quarterNumber := if second.Some? then ParseIntPrefix(second.value) else None)
  }

  /** A character after the first of `${i}` is a digit, so the text of an
      integer never contains the separator. */
  lemma IntTextHasNoSep(i: int)
    ensures forall k :: 1 <= k < |IntToString(i)| ==> IsDigit(IntToString(i)[k])
  {
    var t := IntToString(i);
    if i < 0 {
      forall k | 1 <= k < |t| ensures IsDigit(t[k]) {
        assert t[k] == t[1..][k - 1];
      }
    }
  }

  lemma FindSepIsFirst(s: string, from: nat, n: nat)
    requires from <= n && SepAt(s, n)
    requires forall i :: from <= i < n ==> !SepAt(s, i)
    ensures FindSep(s, from) == Some(n)
  {
  }

  /** Selecting "Y-Tq" sets year Y and quarter number q and keeps the key. */
  lemma QuarterKeyRoundTrip(form: Form, y: int, q: int)
    ensures HandleQuarterChange(form, ManualKey(y, q))
         == form.(quarter := ManualKey(y, q), year := Some(y), quarterNumber := Some(q))
  {
    var ys, qs := IntToString(y), IntToString(q);
    var key := ManualKey(y, q);
    var n := |ys|;
    IntTextHasNoSep(y);
    IntTextHasNoSep(q);
    assert key == ys + "-T" + qs;
    assert key[..n] == ys;
    assert key[n + 2..] == qs;
    forall i | 0 <= i < n ensures !SepAt(key, i) {
      if i + 1 < n {
        assert key[i + 1] == ys[i + 1];
      } else {
        assert key[i + 1] == '-';
      }
    }
    FindSepIsFirst(key, 0, n);
    forall i | n + 2 <= i ensures !SepAt(key, i) {
      if i + 1 < |key| {
        assert key[i + 1] == qs[i + 1 - (n + 2)];
      }
    }
    assert FindSep(key, n + 2).None?;
    assert SplitPieces(key) == (ys, Some(qs));
    ParseIntOfIntToString(y, "");
    ParseIntOfIntToString(q, "");
    assert ys + "" == ys && qs + "" == qs;
  }

  /** The keys the selector offers: years 2023 to 2025, quarters 1 to 4. */
  const OfferedKeys: seq<string> := seq(12, i requires 0 <= i < 12 => ManualKey(2023 + i / 4, i % 4 + 1))

  /** Every offered key sets a year in 2023..2025 and a quarter in 1..4. */
  lemma OfferedKeysRoundTrip(form: Form, i: int)
    requires 0 <= i < |OfferedKeys|
    ensures var r := HandleQuarterChange(form, OfferedKeys[i]);
            && r.year.Some? && 2023 <= r.year.value <= 2025
            && r.quarterNumber.Some? && 1 <= r.quarterNumber.value <= 4
            && OfferedKeys[i] == ManualKey(r.year.value, r.quarterNumber.value)
  {
    var y, q := 2023 + i / 4, i % 4 + 1;
    assert OfferedKeys[i] == ManualKey(y, q);
    QuarterKeyRoundTrip(form, y, q);
  }

  // ---------------------------------------------------------------- submit

  datatype Mode = Create | Edit | Delete

  /** What a submit leaves behind: the table, whether the dialog closed and
      whether `onSuccess` was called. */
  datatype SubmitOutcome = SubmitOutcome(db: seq<Indicator>, closed: bool, successFired: bool)

  /** JSON carries NaN as null, which the NOT NULL `year` and
      `quarter_number` columns refuse. */
  predicate PeriodWritable(form: Form) {
    form.year.Some? && form.quarterNumber.Some?
  }

  /** `.update(formData)` writes the keys the form holds: a field the form
      lacks keeps its stored value. */
  function Patch(stored: Metrics, written: Metrics): (r: Metrics)
    ensures forall f :: written.Get(f).Some? ==> r.Get(f) == written.Get(f)
    ensures forall f :: written.Get(f).None? ==> r.Get(f) == stored.Get(f)
  {
    MetricsOf(f => if written.Get(f).Some? then written.Get(f) else stored.Get(f))
  }

  /** A stored record after `.update(formData)`. */
  function Updated(d: Indicator, form: Form): (r: Indicator)
    requires PeriodWritable(form)
    ensures r.id == d.id && r.companyId == form.companyId && r.quarter == form.quarter
    ensures r.year == form.year.value && r.quarterNumber == form.quarterNumber.value
  {
    Indicator(d.id, form.companyId, form.quarter, form.year.value, form.quarterNumber.value,
              Patch(d.metrics, form.metrics))
  }

  /** `.delete().eq('id', id)`. */
  function RemoveId(db: seq<Indicator>, id: string): (r: seq<Indicator>)
    ensures forall d :: d in r <==> d in db && d.id != id
    ensures |r| <= |db|
  {
    if |db| == 0 then []
    else
      var rest := RemoveId(db[1..], id);
      assert forall d :: d in db <==> d == db[0] || d in db[1..];
      if db[0].id == id then rest else [db[0]] + rest
  }

  /** `.update(formData).eq('id', id)`. */
  function UpdateId(db: seq<Indicator>, id: string, form: Form): (r: seq<Indicator>)
    requires PeriodWritable(form)
    ensures |r| == |db|
    ensures forall i :: 0 <= i < |db| && db[i].id != id ==> r[i] == db[i]
    ensures forall i :: 0 <= i < |db| && db[i].id == id ==> r[i] == Updated(db[i], form)
  {
    seq(|db|, i requires 0 <= i < |db| => if db[i].id == id then Updated(db[i], form) else db[i])
  }

  /** The record `.insert` stores: the form's values under the dialog's
      own company, whatever company the form holds. */
  function Created(id: string, companyId: string, form: Form): (r: Indicator)
    requires PeriodWritable(form)
    ensures r.id == id && r.companyId == companyId && r.quarter == form.quarter && r.metrics == form.metrics
    ensures r.year == form.year.value && r.quarterNumber == form.quarterNumber.value
  {
    Indicator(id, companyId, form.quarter, form.year.value, form.quarterNumber.value, form.metrics)
  }

  /** `handleSubmit`. Delete and edit need the record they were opened
      with; without it nothing is written but the dialog still closes and
      reports success. A database error leaves the dialog open and the
      callback uncalled. */
  function Submit(mode: Mode, data: Option<Indicator>, companyId: string, form: Form,
                  db: seq<Indicator>, newId: string, dbError: Option<string>): (r: SubmitOutcome)
    ensures r.closed <==> r.successFired
    ensures !r.closed <==>
              (mode == Create || data.Some?) && (dbError.Some? || (mode != Delete && !PeriodWritable(form)))
    ensures !r.closed ==> r.db == db
    ensures mode != Create && data.None? ==> r == SubmitOutcome(db, true, true)
    ensures mode == Delete && data.Some? && r.closed ==>
              forall d :: d in r.db <==> d in db && d.id != data.value.id
    ensures mode == Edit && data.Some? && r.closed ==>
              && PeriodWritable(form)
              && |r.db| == |db|
              && (forall i :: 0 <= i < |db| && db[i].id != data.value.id ==> r.db[i] == db[i])
              && (forall i :: 0 <= i < |db| && db[i].id == data.value.id ==> r.db[i] == Updated(db[i], form))
    ensures mode == Create && r.closed ==>
              && |r.db| == |db| + 1 && r.db[..|db|] == db
              && PeriodWritable(form)
              && r.db[|db|].id == newId && r.db[|db|].companyId == companyId && r.db[|db|].quarter == form.quarter
              && r.db[|db|].year == form.year.value && r.db[|db|].quarterNumber == form.quarterNumber.value
              && r.db[|db|].metrics == form.metrics
  {
    var fail := SubmitOutcome(db, false, false);
    match mode
    case Delete =>
      if data.None? then SubmitOutcome(db, true, true)
      else if dbError.Some? then fail
      else SubmitOutcome(RemoveId(db, data.value.id), true, true)
    case Edit =>
      if data.None? then SubmitOutcome(db, true, true)
      else if dbError.Some? || !PeriodWritable(form) then fail
      else SubmitOutcome(UpdateId(db, data.value.id, form), true, true)
    case Create =>
      if dbError.Some? || !PeriodWritable(form) then fail
      else
        var db' := db + [Created(newId, companyId, form)];
        assert db'[..|db|] == db;
        SubmitOutcome(db', true, true)
  }

  /** Saving an edit form without touching it rewrites the record with its
      missing metrics as 0, while earnings per share, which the form does
      not hold, keeps its stored value. */
  lemma UnchangedEditFillsZeros(d: Indicator, companyId: string, currentYear: int, f: Field)
    ensures var form := InitialForm(companyId, Some(d), currentYear);
            && PeriodWritable(form)
            && (OnForm(f) ==> Updated(d, form).Get(f) == Some(Or(d.Get(f), 0.0)))
            && (!OnForm(f) ==> Updated(d, form).Get(f) == d.Get(f))
  {
    var form := InitialForm(companyId, Some(d), currentYear);
    assert form.metrics.Get(f) == InitialValue(Some(d), f);
  }

  /** Deleting removes every record with the id and nothing else; a second
      delete of the same record changes nothing more. */
  lemma DeleteIsIdempotent(db: seq<Indicator>, d: Indicator, companyId: string, form: Form)
    ensures var once := Submit(Delete, Some(d), companyId, form, db, "", None).db;
            Submit(Delete, Some(d), companyId, form, once, "", None).db == RemoveId(once, d.id)
            && forall e :: e in RemoveId(once, d.id) <==> e in once
  {
  }
}
