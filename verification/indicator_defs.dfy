/**
 The indicator-definition page (src/pages/Indicators.tsx): the field-name
 slugifier, the SQL column text, and the create / update dispatch of the
 definition dialog. The definitions table is a sequence of rows; the
 database's error reply and the id it assigns are parameters.
 */
module IndicatorDefs {
  import opened Common

  // ---------------------------------------------------------------- field names

  predicate IsAlnum(c: char) {
    'a' <= c <= 'z' || '0' <= c <= '9'
  }

  /** The characters a generated field name is made of. */
  predicate IsSlugChar(c: char) {
    IsAlnum(c) || c == '_'
  }

  /** A combining diacritical mark, U+0300 to U+036F. */
  predicate IsCombiningMark(c: char) {
    '\U{0300}' <= c <= '\U{036F}'
  }

  /** No two consecutive underscores. */
  predicate NoDoubleUnderscore(s: string) {
    forall i :: 0 <= i < |s| - 1 ==> !(s[i] == '_' && s[i + 1] == '_')
  }

  /** A well-formed field name: slug characters only, no run of
      underscores, no underscore at either end. */
  predicate IsFieldName(s: string) {
    && (forall i :: 0 <= i < |s| ==> IsSlugChar(s[i]))
    && NoDoubleUnderscore(s)
    && (|s| > 0 ==> s[0] != '_' && s[|s| - 1] != '_')
  }

  /** The letters and digits of `s`, in order. */
  function Alnums(s: string): string {
    if |s| == 0 then ""
    else (if IsAlnum(s[0]) then [s[0]] else "") + Alnums(s[1..])
  }

  /** `.replace(/[\u0300-\u036f]/g, "")`. */
  function StripMarks(s: string): (r: string)
    ensures forall i :: 0 <= i < |r| ==> !IsCombiningMark(r[i])
    ensures Alnums(r) == Alnums(s)
    ensures (forall i :: 0 <= i < |s| ==> !IsCombiningMark(s[i])) ==> r == s
  {
    if |s| == 0 then ""
    else
      var head := if IsCombiningMark(s[0]) then "" else [s[0]];
      var rest := StripMarks(s[1..]);
      AlnumsOfConcat(head, rest);
      assert s == [s[0]] + s[1..];
      head + rest
  }

  /** `.replace(/[^a-z0-9]/g, "_")`. */
  function Underscore(s: string): (r: string)
    ensures |r| == |s|
    ensures forall i :: 0 <= i < |s| ==> r[i] == (if IsAlnum(s[i]) then s[i] else '_')
  {
    seq(|s|, i requires 0 <= i < |s| => if IsAlnum(s[i]) then s[i] else '_')
  }

  /** `.replace(/_+/g, "_")`: every run of underscores becomes one. */
  function Collapse(s: string): (r: string)
    ensures |r| <= |s|
    ensures NoDoubleUnderscore(r)
    ensures |s| > 0 ==> |r| > 0 && r[0] == s[0] && r[|r| - 1] == s[|s| - 1]
    ensures (forall i :: 0 <= i < |s| ==> IsSlugChar(s[i])) ==> forall i :: 0 <= i < |r| ==> IsSlugChar(r[i])
    decreases |s|
  {
    if |s| <= 1 then s
    else if s[0] == '_' && s[1] == '_' then Collapse(s[1..])
    else [s[0]] + Collapse(s[1..])
  }

  /** Where `.replace(/^_|_$/g, "")` cuts `s`: one underscore dropped at
      each end. */
  function StripLow(s: string): nat {
    if |s| > 0 && s[0] == '_' then 1 else 0
  }

  function StripHigh(s: string): (hi: nat)
    ensures StripLow(s) <= hi <= |s|
  {
    if |s| > StripLow(s) && s[|s| - 1] == '_' then |s| - 1 else |s|
  }

  function StripEnds(s: string): (r: string)
    ensures NoDoubleUnderscore(s) ==> NoDoubleUnderscore(r) && (|r| > 0 ==> r[0] != '_' && r[|r| - 1] != '_')
    ensures (forall i :: 0 <= i < |s| ==> IsSlugChar(s[i])) ==> forall i :: 0 <= i < |r| ==> IsSlugChar(r[i])
  {
    SliceKeepsShape(s, StripLow(s), StripHigh(s));
    s[StripLow(s)..StripHigh(s)]
  }

  /** A slice keeps the character class and the absence of runs. */
  lemma SliceKeepsShape(s: string, lo: nat, hi: nat)
    requires lo <= hi <= |s|
    ensures NoDoubleUnderscore(s) ==> NoDoubleUnderscore(s[lo..hi])
    ensures (forall i :: 0 <= i < |s| ==> IsSlugChar(s[i])) ==> forall i :: 0 <= i < hi - lo ==> IsSlugChar(s[lo..hi][i])
  {
    forall i | 0 <= i < hi - lo ensures s[lo..hi][i] == s[lo + i] {
    }
  }

  /** `generateFieldName`. The NFD decomposition is taken as already done
      on the input, so accents arrive as separate combining marks. */
  function GenerateFieldName(name: string): (r: string)
    ensures IsFieldName(r)
  {
    StripEnds(Collapse(Underscore(StripMarks(Lower(name)))))
  }

  lemma {:induction false} AlnumsOfUnderscore(s: string)
    ensures Alnums(Underscore(s)) == Alnums(s)
  {
    if |s| > 0 {
      assert Underscore(s)[1..] == Underscore(s[1..]);
      AlnumsOfUnderscore(s[1..]);
    }
  }

  lemma {:induction false} AlnumsOfCollapse(s: string)
    ensures Alnums(Collapse(s)) == Alnums(s)
    decreases |s|
  {
    if |s| > 1 {
      AlnumsOfCollapse(s[1..]);
      if !(s[0] == '_' && s[1] == '_') {
        assert ([s[0]] + Collapse(s[1..]))[1..] == Collapse(s[1..]);
      }
    }
  }

  lemma {:induction false} AlnumsOfConcat(a: string, b: string)
    ensures Alnums(a + b) == Alnums(a) + Alnums(b)
  {
    if |a| == 0 {
      assert a + b == b;
    } else {
      var c := a + b;
      var head := if IsAlnum(a[0]) then [a[0]] else "";
      assert c[0] == a[0] && c[1..] == a[1..] + b;
      AlnumsOfConcat(a[1..], b);
      calc {
        Alnums(c);
        head + Alnums(a[1..] + b);
        head + (Alnums(a[1..]) + Alnums(b));
        (head + Alnums(a[1..])) + Alnums(b);
      }
    }
  }

  /** An underscore at the end carries no letter or digit. */
  lemma AlnumsOfTrailingUnderscore(a: string)
    requires |a| > 0 && a[|a| - 1] == '_'
    ensures Alnums(a[..|a| - 1]) == Alnums(a)
  {
    var p := a[..|a| - 1];
    assert a == p + "_";
    assert Alnums("_") == "" by {
      assert "_"[1..] == "";
    }
    AlnumsOfConcat(p, "_");
  }

  lemma AlnumsOfStripEnds(s: string)
    ensures Alnums(StripEnds(s)) == Alnums(s)
  {
    var lo, hi := StripLow(s), StripHigh(s);
    var a := s[lo..];
    assert Alnums(a) == Alnums(s) by {
      if lo == 1 {
        assert s[0] == '_';
      }
    }
    if hi < |s| {
      assert a[..|a| - 1] == s[lo..hi];
      AlnumsOfTrailingUnderscore(a);
    } else {
      assert a == s[lo..hi];
    }
  }

  /** The letters and digits of the field name are exactly those of the
      lowercased name, in order: only separators are rewritten. */
  lemma FieldNameKeepsLettersAndDigits(name: string)
    ensures Alnums(GenerateFieldName(name)) == Alnums(Lower(name))
  {
    var p := StripMarks(Lower(name));
    AlnumsOfUnderscore(p);
    AlnumsOfCollapse(Underscore(p));
    AlnumsOfStripEnds(Collapse(Underscore(p)));
  }

  lemma {:induction false} CollapseKeepsNoDouble(s: string)
    requires NoDoubleUnderscore(s)
    ensures Collapse(s) == s
    decreases |s|
  {
    if |s| > 1 {
      assert NoDoubleUnderscore(s[1..]) by {
        forall i | 0 <= i < |s[1..]| - 1 ensures !(s[1..][i] == '_' && s[1..][i + 1] == '_') {
          assert s[1..][i] == s[i + 1] && s[1..][i + 1] == s[i + 2];
        }
      }
      CollapseKeepsNoDouble(s[1..]);
      assert !(s[0] == '_' && s[1] == '_');
      assert s == [s[0]] + s[1..];
    }
  }

  /** Lowercasing, mark stripping and the separator rewrite leave a string
      of slug characters as it is. */
  lemma SlugPassesThrough(r: string)
    requires forall i :: 0 <= i < |r| ==> IsSlugChar(r[i])
    ensures Underscore(StripMarks(Lower(r))) == r
  {
    assert Lower(r) == r by {
      forall i | 0 <= i < |r| ensures Lower(r)[i] == r[i] {
        assert IsSlugChar(r[i]);
      }
    }
    assert StripMarks(r) == r by {
      forall i | 0 <= i < |r| ensures !IsCombiningMark(r[i]) {
        assert IsSlugChar(r[i]);
      }
    }
    assert Underscore(r) == r by {
      forall i | 0 <= i < |r| ensures Underscore(r)[i] == r[i] {
        assert IsSlugChar(r[i]);
      }
    }
  }

  /** A well-formed field name is its own field name: generating twice is
      generating once. */
  lemma FieldNameIsFixedPoint(r: string)
    requires IsFieldName(r)
    ensures GenerateFieldName(r) == r
  {
    SlugPassesThrough(r);
    CollapseKeepsNoDouble(r);
    StripEndsKeepsFieldName(r);
  }

  lemma StripEndsKeepsFieldName(r: string)
    requires IsFieldName(r)
    ensures StripEnds(r) == r
  {
    assert StripLow(r) == 0 && StripHigh(r) == |r|;
  }

  lemma GenerateFieldNameIdempotent(name: string)
    ensures GenerateFieldName(GenerateFieldName(name)) == GenerateFieldName(name)
  {
    FieldNameIsFixedPoint(GenerateFieldName(name));
  }

  // ---------------------------------------------------------------- SQL column

  /** Column type of a unit: money needs more integer digits, ratios and
      percentages more decimals. */
  function SqlType(unit: Unit): (t: string)
    ensures t == "DECIMAL(15,2)" <==> unit == Currency
    ensures t == "DECIMAL(10,4)" <==> unit != Currency
  {
    if unit == Currency then "DECIMAL(15,2)" else "DECIMAL(10,4)"
  }

  /** `generateSqlColumn`: `"<fieldName> <type>"`. */
  function GenerateSqlColumn(fieldName: string, unit: Unit): string {
    fieldName + " " + SqlType(unit)
  }

  /** Index of the first space in `s`, or `|s|`. */
  function FirstSpace(s: string): (k: nat)
    ensures k <= |s| && forall i :: 0 <= i < k ==> s[i] != ' '
    ensures k < |s| ==> s[k] == ' '
  {
    if |s| == 0 || s[0] == ' ' then 0 else 1 + FirstSpace(s[1..])
  }

  /** The column name and type read back from a column text. */
  function ParseSqlColumn(s: string): (r: (string, string))
  {
    var k := FirstSpace(s);
    (s[..k], if k < |s| then s[k + 1..] else "")
  }

  /** Reading the column text back gives the field name and its unit's type,
      for any field name without a space, generated ones included. */
  lemma SqlColumnRoundTrip(fieldName: string, unit: Unit)
    requires forall i :: 0 <= i < |fieldName| ==> fieldName[i] != ' '
    ensures ParseSqlColumn(GenerateSqlColumn(fieldName, unit)) == (fieldName, SqlType(unit))
  {
    var s := GenerateSqlColumn(fieldName, unit);
    assert s[|fieldName|] == ' ';
    assert FirstSpace(s) == |fieldName| by {
      assert forall i :: 0 <= i < |fieldName| ==> s[i] == fieldName[i];
    }
    assert s[..|fieldName|] == fieldName;
    assert s[|fieldName| + 1..] == SqlType(unit);
  }

  /** Generated field names contain no space, so their column text reads back. */
  lemma GeneratedColumnRoundTrip(name: string, unit: Unit)
    ensures ParseSqlColumn(GenerateSqlColumn(GenerateFieldName(name), unit)) == (GenerateFieldName(name), SqlType(unit))
  {
    var f := GenerateFieldName(name);
    forall i | 0 <= i < |f| ensures f[i] != ' ' {
      assert IsSlugChar(f[i]);
    }
    SqlColumnRoundTrip(f, unit);
  }

  // ---------------------------------------------------------------- dialog

  datatype Category = Revenue | CashFlow | Debt | Liquidity | Profitability | Returns

  /** A stored indicator definition; `categoria` is the optional sector. */
  datatype Definition = Definition(
    id: string,
    name: string,
    fieldName: string,
    category: Category,
    unit: Unit,
    description: string,
    sqlColumn: string,
    categoria: Option<string>)

  /** The dialog's fields; an empty `categoria` means none chosen. */
  datatype DefinitionForm = DefinitionForm(
    name: string,
    fieldName: string,
    category: Category,
    unit: Unit,
    description: string,
    categoria: string)

  /** The page state the dialog uses. */
  datatype Page = Page(dialogOpen: bool, editing: Option<Definition>, form: DefinitionForm)

  const EmptyForm := DefinitionForm("", "", Revenue, Currency, "", "")

  /** `handleCloseDialog`: closed, editing nothing, and the form emptied
      with category "revenue" and unit "currency". */
  function CloseDialog(page: Page): (r: Page)
    ensures !r.dialogOpen && r.editing.None?
    ensures r.form.name == "" && r.form.fieldName == "" && r.form.description == "" && r.form.categoria == ""
    ensures r.form.category == Revenue && r.form.unit == Currency
  {
    Page(false, None, EmptyForm)
  }

  /** `handleEdit`: the dialog opens on the definition, a missing
      `categoria` showing as empty. */
  function HandleEdit(page: Page, d: Definition): (r: Page)
    ensures r.dialogOpen && r.editing == Some(d)
    ensures r.form.name == d.name && r.form.fieldName == d.fieldName && r.form.unit == d.unit
    ensures r.form.categoria == "" <==> d.categoria.None? || d.categoria == Some("")
  {
    Page(true, Some(d), DefinitionForm(d.name, d.fieldName, d.category, d.unit, d.description,
                                       if d.categoria.Some? then d.categoria.value else ""))
  }

  /** `formData.field_name || generateFieldName(formData.name)`. */
  function ChosenFieldName(form: DefinitionForm): (f: string)
    ensures form.fieldName != "" ==> f == form.fieldName
    ensures form.fieldName == "" ==> f == GenerateFieldName(form.name) && IsFieldName(f)
  {
    if form.fieldName != "" then form.fieldName else GenerateFieldName(form.name)
  }

  /** The row content a submit writes. */
  function Written(id: string, form: DefinitionForm): (d: Definition)
    ensures d.id == id && d.name == form.name && d.fieldName == ChosenFieldName(form)
    ensures d.sqlColumn == GenerateSqlColumn(d.fieldName, form.unit)
    ensures d.categoria.None? <==> form.categoria == ""
    ensures d.categoria.Some? ==> d.categoria.value == form.categoria
  {
    var fieldName := ChosenFieldName(form);
    Definition(id, form.name, fieldName, form.category, form.unit, form.description,
               GenerateSqlColumn(fieldName, form.unit),
               if form.categoria == "" then None else Some(form.categoria))
  }

  /** `.update(…).eq('id', id)`. */
  function UpdateDefinition(db: seq<Definition>, id: string, form: DefinitionForm): (r: seq<Definition>)
    ensures |r| == |db|
    ensures forall i :: 0 <= i < |db| && db[i].id != id ==> r[i] == db[i]
    ensures forall i :: 0 <= i < |db| && db[i].id == id ==> r[i] == Written(id, form)
  {
    seq(|db|, i requires 0 <= i < |db| => if db[i].id == id then Written(id, form) else db[i])
  }

  /** `handleSubmit`: an update of the definition being edited, otherwise
      an insert; on success the dialog closes, on a database error page and
      table stay as they were. */
  function Submit(page: Page, db: seq<Definition>, newId: string, dbError: Option<string>): (r: (Page, seq<Definition>))
    ensures dbError.Some? ==> r == (page, db)
    ensures dbError.None? ==> r.0 == CloseDialog(page)
    ensures dbError.None? && page.editing.None? ==> r.1 == db + [Written(newId, page.form)]
    ensures dbError.None? && page.editing.Some? ==>
              var id := page.editing.value.id;
              && |r.1| == |db|
              && (forall i :: 0 <= i < |db| && db[i].id != id ==> r.1[i] == db[i])
              && (forall i :: 0 <= i < |db| && db[i].id == id ==> r.1[i] == Written(id, page.form))
  {
    if dbError.Some? then (page, db)
    else match page.editing
      case Some(e) => (CloseDialog(page), UpdateDefinition(db, e.id, page.form))
      case None => (CloseDialog(page), db + [Written(newId, page.form)])
  }

  /** After the dialog closes, the next submit inserts a new definition. */
  lemma SubmitAfterCloseInserts(page: Page, form: DefinitionForm, db: seq<Definition>, newId: string)
    ensures var p := CloseDialog(page).(dialogOpen := true, form := form);
            Submit(p, db, newId, None).1 == db + [Written(newId, form)]
  {
  }

  /** Saving an opened definition unchanged rewrites it as it was, as long
      as it has a field name, its column text is the generated one and its
      `categoria` is not the empty string. */
  lemma UnchangedEditKeepsDefinition(page: Page, d: Definition, db: seq<Definition>, i: int)
    requires 0 <= i < |db| && db[i] == d
    requires d.fieldName != "" && d.sqlColumn == GenerateSqlColumn(d.fieldName, d.unit)
    requires d.categoria != Some("")
    ensures Submit(HandleEdit(page, d), db, "", None).1[i] == d
  {
    var r := Submit(HandleEdit(page, d), db, "", None).1;
    assert r[i] == Written(d.id, HandleEdit(page, d).form);
  }
}
