/** The form transformation of content/content.js: the text chosen for a
    field's label, the grouping of fields into sections by their fieldset
    legend, the rows of two fields, the validation of a field with its
    error display, and the buttons. */
module ContentForms {
  import opened JsText
  import opened Batching

  /** An element before the input among its siblings: its tag name and
      its text. */
  datatype Sibling = Sibling(tag: string, text: string)

  /** An `input`, `select` or `textarea` of the original form, with what
      the label lookup finds around it: the text of `label[for=id]`, of
      the first `label` in its parent, and its previous element siblings,
      nearest first. `legend` is the text of the `legend` of its closest
      `fieldset`, when it has both. `help` holds, for each help selector in
      turn, the text of the first match in the parent (`None` when nothing
      matches). Absent attributes are `None`; an absent `name` is "". */
  datatype Input = Input(
    id: string, name: string, placeholder: Option<string>, title: Option<string>,
    legend: Option<string>, required: bool, kind: string, value: string,
    forLabel: Option<string>, parentLabel: Option<string>, siblings: seq<Sibling>,
    help: seq<Option<string>>)

  // ---- label text

  /** The sibling test of the label search. */
  predicate LabelLike(s: Sibling) {
    s.tag == "LABEL" || EndsWith(Trim(s.text), ":")
  }

  /** The index of the first sibling that passes `p`, or the number of
      siblings when none does. */
  function NearestWhere(siblings: seq<Sibling>, p: Sibling -> bool): (k: nat)
    ensures k <= |siblings|
    ensures k < |siblings| ==> p(siblings[k])
    ensures forall j :: 0 <= j < k ==> !p(siblings[j])
  {
    if siblings == [] then 0
    else if p(siblings[0]) then 0
    else 1 + NearestWhere(siblings[1..], p)
  }

  /** What the nearest label-like sibling gives: its trimmed text with the
      first ':' removed. */
  function SiblingLabel(siblings: seq<Sibling>): Option<string> {
    var k := NearestWhere(siblings, LabelLike);
    if k == |siblings| then None else Some(ReplaceFirst(Trim(siblings[k].text), ':', ""))
  }

  /** The walk over the previous siblings, nearest first, that stops at
      the first label-like one. */
  method NearbyLabel(siblings: seq<Sibling>) returns (r: Option<string>)
    ensures r == SiblingLabel(siblings)
  {
    r := None;
    var k := 0;
    while k < |siblings|
      invariant 0 <= k <= |siblings|
      invariant NearestWhere(siblings, LabelLike) == k + NearestWhere(siblings[k..], LabelLike)
    {
      var prev := siblings[k];
      assert siblings[k..][0] == prev;
      if LabelLike(prev) {
        r := Some(ReplaceFirst(Trim(prev.text), ':', ""));
        break;
      }
      assert siblings[k..][1..] == siblings[k + 1..];
      k := k + 1;
    }
  }

  /** `getAttribute('placeholder') || getAttribute('title') || name ||
      'Поле'`. */
  function Fallback(f: Input): (r: string)
    ensures r != ""
  {
    if f.placeholder.Some? && f.placeholder.value != "" then f.placeholder.value
    else if f.title.Some? && f.title.value != "" then f.title.value
    else if f.name != "" then f.name
    else "Поле"
  }

  /** The text the label elements give ("" when they give none). */
  function FromLabels(f: Input): string {
    var a := if f.forLabel.Some? then Trim(f.forLabel.value) else "";
    var b := if a == "" && f.parentLabel.Some? then Trim(f.parentLabel.value) else a;
    if b == "" then (match SiblingLabel(f.siblings) case Some(t) => t case None => "") else b
  }

  /** The text the chain settles on before the final clean-up. */
  function Chosen(f: Input): string {
    var c := FromLabels(f);
    if c == "" then Fallback(f) else c
  }

  /** `replace(/\*$/, '')`: one '*' at the very end is removed. */
  function StripStar(s: string): (r: string) {
    if |s| > 0 && s[|s| - 1] == '*' then s[..|s| - 1] else s
  }

  /** The label text `extractLabelText` returns. */
  function LabelText(f: Input): (r: string)
    ensures IsTrimmed(r)
  {
    Trim(StripStar(Chosen(f)))
  }

  /** `extractLabelText`: the text of `label[for=id]`, else of the first
      label in the parent, else of the nearest label-like previous
      sibling, else the attributes; then one trailing '*' is dropped and
      the text trimmed. */
  method ExtractLabelText(f: Input) returns (labelText: string)
    ensures labelText == LabelText(f)
  {
    labelText := "";
    if f.forLabel.Some? {
      labelText := Trim(f.forLabel.value);
    }
    if labelText == "" && f.parentLabel.Some? {
      labelText := Trim(f.parentLabel.value);
    }
    if labelText == "" {
      var nearby := NearbyLabel(f.siblings);
      if nearby.Some? {
        labelText := nearby.value;
      }
    }
    assert labelText == FromLabels(f);
    if labelText == "" {
      if f.placeholder.Some? && f.placeholder.value != "" {
        labelText := f.placeholder.value;
      } else if f.title.Some? && f.title.value != "" {
        labelText := f.title.value;
      } else if f.name != "" {
        labelText := f.name;
      } else {
        labelText := "Поле";
      }
      assert labelText == Fallback(f);
    }
    assert labelText == Chosen(f);
    labelText := Trim(StripStar(labelText));
  }

  /** The first non-empty text of a list of candidates ("" if none). */
  function FirstNonEmpty(cands: seq<string>): string {
    if cands == [] then "" else if cands[0] != "" then cands[0] else FirstNonEmpty(cands[1..])
  }

  lemma FirstNonEmptyCons(x: string, rest: seq<string>)
    ensures FirstNonEmpty([x] + rest) == if x != "" then x else FirstNonEmpty(rest)
  {
    assert ([x] + rest)[1..] == rest;
  }

  /** The candidates in the order the chain tries them. */
  function Candidates(f: Input): seq<string> {
    [if f.forLabel.Some? then Trim(f.forLabel.value) else ""]
    + ([if f.parentLabel.Some? then Trim(f.parentLabel.value) else ""]
    + ([match SiblingLabel(f.siblings) case Some(t) => t case None => ""]
    + ([if f.placeholder.Some? then f.placeholder.value else ""]
    + ([if f.title.Some? then f.title.value else ""]
    + ([f.name] + ["Поле"])))))
  }

  /** The chain takes the first candidate that is not empty, and there
      always is one. */
  lemma ChosenIsFirstCandidate(f: Input)
    ensures Chosen(f) == FirstNonEmpty(Candidates(f))
    ensures Chosen(f) != ""
  {
    var c := Candidates(f);
    var c1 := c[1..];
    var c2 := c1[1..];
    var c3 := c2[1..];
    var c4 := c3[1..];
    var c5 := c4[1..];
    assert c == [c[0]] + c1 && c1 == [c1[0]] + c2 && c2 == [c2[0]] + c3;
    assert c3 == [c3[0]] + c4 && c4 == [c4[0]] + c5 && c5 == [f.name] + ["Поле"];
    FirstNonEmptyCons(c[0], c1);
    FirstNonEmptyCons(c1[0], c2);
    FirstNonEmptyCons(c2[0], c3);
    FirstNonEmptyCons(c3[0], c4);
    FirstNonEmptyCons(c4[0], c5);
    FirstNonEmptyCons(f.name, ["Поле"]);
    FirstNonEmptyCons("Поле", []);
  }

  /** A single '*' after the text is removed: a label written "Имя *" reads
      "Имя". */
  lemma SingleStarRemoved(f: Input, s: string)
    requires Chosen(f) == s + "*" && IsTrimmed(TrimEnd(s)) && IsTrimmed(s)
    requires s == [] || s[|s| - 1] != '*'
    ensures LabelText(f) == s
    ensures !EndsWith(LabelText(f), "*")
  {
    assert StripStar(s + "*") == s;
    TrimOfTrimmed(s);
  }

  /** Only one '*' is removed: a text ending in "**" keeps one, so the
      label can still end with '*'. */
  lemma DoubleStarKeepsOne(f: Input, s: string)
    requires Chosen(f) == s + "**" && IsTrimmed(s + "*")
    ensures LabelText(f) == s + "*"
    ensures EndsWith(LabelText(f), "*")
  {
    assert StripStar(s + "**") == s + "*";
    TrimOfTrimmed(s + "*");
  }

  /** A placeholder of white space only is chosen (it is truthy) and then
      trimmed away: such a field gets no label at all. */
  lemma BlankPlaceholderGivesNoLabel(f: Input)
    requires f.forLabel.None? && f.parentLabel.None? && SiblingLabel(f.siblings).None?
    requires f.placeholder.Some? && f.placeholder.value != "" && forall i :: 0 <= i < |f.placeholder.value| ==> IsSpace(f.placeholder.value[i])
    ensures LabelText(f) == ""
  {
    var p := f.placeholder.value;
    assert Chosen(f) == p;
    assert p[|p| - 1] != '*';
    assert StripStar(p) == p;
    var a := TrimStart(p);
    assert a == [];
  }

  // ---- sections

  /** A form section: its title (`null` when the fields are in no
      fieldset with a legend) and its fields in document order. */
  datatype Section = Section(title: Option<string>, fields: seq<Input>)

  /** The title of the section a field belongs to: its trimmed legend. */
  function SectionTitle(f: Input): Option<string> {
    if f.legend.Some? then Some(Trim(f.legend.value)) else None
  }

  /* The grouping is stated for any title function `key`; the form uses
     `SectionTitle`. */

  /** The fields whose title is `t`, in input order. */
  function FieldsTitled(inputs: seq<Input>, key: Input -> Option<string>, t: Option<string>): (r: seq<Input>)
    ensures |r| <= |inputs|
  {
    if inputs == [] then []
    else
      var init := FieldsTitled(inputs[..|inputs| - 1], key, t);
      var x := inputs[|inputs| - 1];
      if key(x) == t then init + [x] else init
  }

  /** A field is among those titled `t` exactly when it is one of the
      inputs and has that title. */
  lemma {:induction false} FieldsTitledMember(inputs: seq<Input>, key: Input -> Option<string>, t: Option<string>, x: Input)
    ensures x in FieldsTitled(inputs, key, t) <==> x in inputs && key(x) == t
  {
    if inputs != [] {
      var init := inputs[..|inputs| - 1];
      FieldsTitledMember(init, key, t, x);
      assert inputs == init + [inputs[|inputs| - 1]];
    }
  }

  lemma FieldsTitledSnoc(inputs: seq<Input>, key: Input -> Option<string>, i: int, t: Option<string>)
    requires 0 <= i < |inputs|
    ensures FieldsTitled(inputs[..i + 1], key, t)
      == FieldsTitled(inputs[..i], key, t) + (if key(inputs[i]) == t then [inputs[i]] else [])
  {
    assert inputs[..i + 1][..i] == inputs[..i];
  }

  /** `sections.find(s => s.title === t)`: the index of the first section
      with that title, or the number of sections when there is none. */
  function FindSection(sections: seq<Section>, t: Option<string>): (k: nat)
    ensures k <= |sections|
    ensures k < |sections| ==> sections[k].title == t
    ensures forall j :: 0 <= j < k ==> sections[j].title != t
  {
    if sections == [] then 0
    else if sections[0].title == t then 0
    else 1 + FindSection(sections[1..], t)
  }

  /** `sections.filter(s => s.fields.length > 0)`. */
  function NonEmptySections(sections: seq<Section>): (r: seq<Section>)
    ensures |r| <= |sections|
  {
    if sections == [] then []
    else if sections[0].fields == [] then NonEmptySections(sections[1..])
    else [sections[0]] + NonEmptySections(sections[1..])
  }

  lemma {:induction false} NonEmptySectionsKeepsAll(sections: seq<Section>)
    requires forall k :: 0 <= k < |sections| ==> sections[k].fields != []
    ensures NonEmptySections(sections) == sections
  {
    if sections != [] {
      NonEmptySectionsKeepsAll(sections[1..]);
    }
  }

  /** When only the first section can be empty, the filter drops it or
      nothing. */
  lemma NonEmptySectionsOfTail(sections: seq<Section>)
    requires |sections| >= 1 && forall k :: 1 <= k < |sections| ==> sections[k].fields != []
    ensures NonEmptySections(sections) == sections[if sections[0].fields == [] then 1 else 0..]
  {
    NonEmptySectionsKeepsAll(sections[1..]);
    assert sections == [sections[0]] + sections[1..];
  }

  /** Titles that differ pairwise. */
  predicate DistinctTitles(sections: seq<Section>) {
    forall a, b :: 0 <= a < b < |sections| ==> sections[a].title != sections[b].title
  }

  /** Title `ta` occurs in the input before the first field titled `tb`. */
  predicate TitledEarlier(inputs: seq<Input>, key: Input -> Option<string>, ta: Option<string>, tb: Option<string>) {
    exists j :: 0 <= j < |inputs| && key(inputs[j]) == ta
      && forall j' :: 0 <= j' <= j ==> key(inputs[j']) != tb
  }

  /** Every one of the first `n` fields has a section. */
  predicate Covered(inputs: seq<Input>, key: Input -> Option<string>, n: int, sections: seq<Section>)
    requires 0 <= n <= |inputs|
  {
    forall j :: 0 <= j < n ==> exists k :: 0 <= k < |sections| && sections[k].title == key(inputs[j])
  }

  /** What the loop of `groupFormFields` keeps true after `i` fields. */
  predicate Grouping(inputs: seq<Input>, key: Input -> Option<string>, i: int, sections: seq<Section>)
    requires 0 <= i <= |inputs|
  {
    && |sections| >= 1 && sections[0].title == None
    && DistinctTitles(sections)
    && (forall k :: 0 <= k < |sections| ==> sections[k].fields == FieldsTitled(inputs[..i], key, sections[k].title))
    && (forall k :: 1 <= k < |sections| ==> sections[k].fields != [])
    && Covered(inputs, key, i, sections)
    && (forall a, b :: 1 <= a < b < |sections| ==> TitledEarlier(inputs, key, sections[a].title, sections[b].title))
  }

  /** What `groupFormFields` promises of its sections: each holds, in
      input order, exactly the fields of its title and is not empty; the
      titles differ; every field is in one; the untitled section comes
      first when it exists; titled sections come in the order their
      titles first occur. */
  predicate WellGrouped(inputs: seq<Input>, key: Input -> Option<string>, result: seq<Section>) {
    && (forall k :: 0 <= k < |result| ==>
         result[k].fields != [] && result[k].fields == FieldsTitled(inputs, key, result[k].title))
    && DistinctTitles(result)
    && Covered(inputs, key, |inputs|, result)
    && ((exists j :: 0 <= j < |inputs| && key(inputs[j]).None?) ==> result[0].title == None)
    && (forall a, b :: 0 <= a < b < |result| && result[a].title.Some? ==>
         TitledEarlier(inputs, key, result[a].title, result[b].title))
  }

  /** `groupFormFields`: every field goes to the section of its title,
      created on first use after the untitled one; sections left empty
      are dropped. */
  method GroupFormFields(inputs: seq<Input>) returns (result: seq<Section>)
    ensures WellGrouped(inputs, SectionTitle, result)
  {
    var sections := [Section(None, [])];
    for i := 0 to |inputs|
      invariant Grouping(inputs, SectionTitle, i, sections)
    {
      var t := SectionTitle(inputs[i]);
      var k := FindSection(sections, t);
      if k == |sections| {
        AppendKeepsGrouping(inputs, SectionTitle, i, sections, t);
        sections := sections + [Section(t, [inputs[i]])];
      } else {
        ExtendKeepsGrouping(inputs, SectionTitle, i, sections, k);
        sections := sections[k := Section(t, sections[k].fields + [inputs[i]])];
      }
    }
    result := NonEmptySections(sections);
    NonEmptySectionsOfTail(sections);
    DroppingEmptySections(inputs, SectionTitle, sections);
  }

  /** A titled section's title occurs among the fields seen. */
  lemma TitleSeen(inputs: seq<Input>, key: Input -> Option<string>, i: int, sections: seq<Section>, a: int)
    requires 0 <= i <= |inputs| && Grouping(inputs, key, i, sections) && 1 <= a < |sections|
    ensures exists j :: 0 <= j < i && key(inputs[j]) == sections[a].title
  {
    var x := sections[a].fields[0];
    FieldsTitledMember(inputs[..i], key, sections[a].title, x);
    var j :| 0 <= j < i && inputs[..i][j] == x;
    assert inputs[j] == x;
  }

  /** Opening a section for a title no section has keeps the invariant. */
  lemma AppendKeepsGrouping(inputs: seq<Input>, key: Input -> Option<string>, i: int, sections: seq<Section>, t: Option<string>)
    requires 0 <= i < |inputs| && t == key(inputs[i]) && Grouping(inputs, key, i, sections)
    requires forall k :: 0 <= k < |sections| ==> sections[k].title != t
    ensures Grouping(inputs, key, i + 1, sections + [Section(t, [inputs[i]])])
  {
    var s' := sections + [Section(t, [inputs[i]])];
    assert forall j :: 0 <= j < i ==> key(inputs[j]) != t;
    forall k | 0 <= k < |s'|
      ensures s'[k].fields == FieldsTitled(inputs[..i + 1], key, s'[k].title)
    {
      FieldsTitledSnoc(inputs, key, i, s'[k].title);
      if k == |sections| {
        if FieldsTitled(inputs[..i], key, t) != [] {
          var x := FieldsTitled(inputs[..i], key, t)[0];
          FieldsTitledMember(inputs[..i], key, t, x);
          assert false;
        }
      }
    }
    forall a, b | 1 <= a < b < |s'|
      ensures TitledEarlier(inputs, key, s'[a].title, s'[b].title)
    {
      if b == |sections| {
        TitleSeen(inputs, key, i, sections, a);
        var j :| 0 <= j < i && key(inputs[j]) == sections[a].title;
        assert forall j' :: 0 <= j' <= j ==> key(inputs[j']) != t;
      }
    }
    forall j | 0 <= j < i + 1
      ensures exists k :: 0 <= k < |s'| && s'[k].title == key(inputs[j])
    {
      if j == i {
        assert s'[|sections|].title == t;
      } else {
        var k :| 0 <= k < |sections| && sections[k].title == key(inputs[j]);
        assert s'[k].title == key(inputs[j]);
      }
    }
  }

  /** Adding a field to the section of its title keeps the invariant. */
  lemma ExtendKeepsGrouping(inputs: seq<Input>, key: Input -> Option<string>, i: int, sections: seq<Section>, k: int)
    requires 0 <= i < |inputs| && Grouping(inputs, key, i, sections)
    requires 0 <= k < |sections| && sections[k].title == key(inputs[i])
    ensures Grouping(inputs, key, i + 1, sections[k := Section(key(inputs[i]), sections[k].fields + [inputs[i]])])
  {
    var t := key(inputs[i]);
    var s' := sections[k := Section(t, sections[k].fields + [inputs[i]])];
    assert forall m :: 0 <= m < |s'| ==> s'[m].title == sections[m].title;
    forall m | 0 <= m < |s'|
      ensures s'[m].fields == FieldsTitled(inputs[..i + 1], key, s'[m].title)
    {
      FieldsTitledSnoc(inputs, key, i, s'[m].title);
    }
    forall j | 0 <= j < i + 1
      ensures exists m :: 0 <= m < |s'| && s'[m].title == key(inputs[j])
    {
      if j == i {
        assert s'[k].title == t;
      } else {
        var m :| 0 <= m < |sections| && sections[m].title == key(inputs[j]);
        assert s'[m].title == key(inputs[j]);
      }
    }
  }

  /** Dropping the untitled section when it is empty leaves sections as
      promised. */
  lemma DroppingEmptySections(inputs: seq<Input>, key: Input -> Option<string>, sections: seq<Section>)
    requires Grouping(inputs, key, |inputs|, sections)
    ensures WellGrouped(inputs, key, sections[if sections[0].fields == [] then 1 else 0..])
  {
    assert inputs[..|inputs|] == inputs;
    var d := if sections[0].fields == [] then 1 else 0;
    DropKeepsFields(inputs, key, sections, d);
    DropKeepsTitles(sections, d);
    DropKeepsOrder(inputs, key, sections, d);
    if d == 1 {
      NoneUntitled(inputs, key);
    }
    DropKeepsCover(inputs, key, sections, d);
  }

  lemma DropKeepsFields(inputs: seq<Input>, key: Input -> Option<string>, sections: seq<Section>, d: int)
    requires 0 <= d <= 1 <= |sections| && (d == 0 ==> sections[0].fields != [])
    requires forall k :: 0 <= k < |sections| ==> sections[k].fields == FieldsTitled(inputs, key, sections[k].title)
    requires forall k :: 1 <= k < |sections| ==> sections[k].fields != []
    ensures forall k :: 0 <= k < |sections[d..]| ==>
      sections[d..][k].fields != [] && sections[d..][k].fields == FieldsTitled(inputs, key, sections[d..][k].title)
  {
    forall k | 0 <= k < |sections[d..]|
      ensures sections[d..][k].fields != [] && sections[d..][k].fields == FieldsTitled(inputs, key, sections[d..][k].title)
    {
      assert sections[d..][k] == sections[k + d];
    }
  }

  lemma DropKeepsTitles(sections: seq<Section>, d: int)
    requires 0 <= d <= |sections| && DistinctTitles(sections)
    ensures DistinctTitles(sections[d..])
  {
    forall a, b | 0 <= a < b < |sections[d..]|
      ensures sections[d..][a].title != sections[d..][b].title
    {
      assert sections[d..][a] == sections[a + d] && sections[d..][b] == sections[b + d];
    }
  }

  lemma DropKeepsOrder(inputs: seq<Input>, key: Input -> Option<string>, sections: seq<Section>, d: int)
    requires 0 <= d <= 1 <= |sections| && sections[0].title == None
    requires forall a, b :: 1 <= a < b < |sections| ==> TitledEarlier(inputs, key, sections[a].title, sections[b].title)
    ensures forall a, b :: 0 <= a < b < |sections[d..]| && sections[d..][a].title.Some? ==>
      TitledEarlier(inputs, key, sections[d..][a].title, sections[d..][b].title)
  {
    forall a, b | 0 <= a < b < |sections[d..]| && sections[d..][a].title.Some?
      ensures TitledEarlier(inputs, key, sections[d..][a].title, sections[d..][b].title)
    {
      assert sections[d..][a] == sections[a + d] && sections[d..][b] == sections[b + d];
      assert 1 <= a + d;
    }
  }

  lemma DropKeepsCover(inputs: seq<Input>, key: Input -> Option<string>, sections: seq<Section>, d: int)
    requires 0 <= d <= 1 <= |sections| && sections[0].title == None
    requires d == 1 ==> forall j :: 0 <= j < |inputs| ==> key(inputs[j]).Some?
    requires Covered(inputs, key, |inputs|, sections)
    ensures Covered(inputs, key, |inputs|, sections[d..])
    ensures (exists j :: 0 <= j < |inputs| && key(inputs[j]).None?) ==> sections[d..][0].title == None
  {
    var r := sections[d..];
    forall j | 0 <= j < |inputs|
      ensures exists k :: 0 <= k < |r| && r[k].title == key(inputs[j])
    {
      var k :| 0 <= k < |sections| && sections[k].title == key(inputs[j]);
      assert r[k - d] == sections[k];
    }
    if d == 1 {
      assert !exists j :: 0 <= j < |inputs| && key(inputs[j]).None?;
    }
  }

  /** No field is untitled when the untitled section stays empty. */
  lemma NoneUntitled(inputs: seq<Input>, key: Input -> Option<string>)
    requires FieldsTitled(inputs, key, None) == []
    ensures forall j :: 0 <= j < |inputs| ==> key(inputs[j]).Some?
  {
    forall j | 0 <= j < |inputs|
      ensures key(inputs[j]).Some?
    {
      FieldsTitledMember(inputs, key, None, inputs[j]);
    }
  }

  // ---- rows

  /** The rows of a section: a row per two fields, the last with one when
      the count is odd. */
  method FormRows(fields: seq<Input>) returns (rows: seq<seq<Input>>)
    ensures rows == Chunks(fields, 2)
  {
    rows := [];
    var i := 0;
    while i < |fields|
      invariant 0 <= i <= |fields| + 1 && i % 2 == 0
      invariant i <= |fields| ==> Chunks(fields, 2) == rows + Chunks(fields[i..], 2)
      invariant i > |fields| ==> rows == Chunks(fields, 2)
    {
      var row := [fields[i]];
      if i + 1 < |fields| {
        row := row + [fields[i + 1]];
      }
      var n := if i + 2 <= |fields| then 2 else |fields| - i;
      assert row == fields[i..][..n];
      assert fields[i..][n..] == fields[i + n..];
      rows := rows + [row];
      i := i + 2;
      if i > |fields| {
        assert fields[i - 2 + n..] == [];
      }
    }
    if i <= |fields| {
      assert fields[i..] == [];
    }
  }

  /** Every field is in exactly one row, in order, and rows hold one or
      two fields. */
  lemma RowsCoverFields(fields: seq<Input>)
    ensures Flatten(Chunks(fields, 2)) == fields
    ensures forall r :: r in Chunks(fields, 2) ==> 1 <= |r| <= 2
  {
    FlattenChunks(fields, 2);
    ChunkSizes(fields, 2);
  }

  // ---- the field

  /** The first help text, in selector order, that is not blank, trimmed. */
  function FirstHelp(help: seq<Option<string>>): (r: Option<string>)
    ensures r.Some? ==> r.value != "" && IsTrimmed(r.value)
    ensures r.None? <==> forall k :: 0 <= k < |help| ==> help[k].None? || Trim(help[k].value) == ""
  {
    if help == [] then None
    else if help[0].Some? && Trim(help[0].value) != "" then Some(Trim(help[0].value))
    else
      var r := FirstHelp(help[1..]);
      assert forall k :: 1 <= k < |help| ==> help[k] == help[1..][k - 1];
      r
  }

  /** `extractHelpText`: the first non-blank help element, else the title
      attribute when it is not empty. */
  function HelpText(f: Input): (r: Option<string>)
    ensures r.Some? ==> r.value != ""
    ensures r.None? <==> FirstHelp(f.help).None? && (f.title.None? || f.title.value == "")
  {
    match FirstHelp(f.help)
    case Some(h) => Some(h)
    case None => if f.title.Some? && f.title.value != "" then f.title else None
  }

  /** The placeholder of the new input: the original, or "Введите <label in
      lower case>" when the original is empty and there is a label. */
  function NewPlaceholder(placeholder: Option<string>, labelText: string): (r: Option<string>)
    ensures labelText != "" ==> r.Some? && r.value != ""
    ensures placeholder.Some? && placeholder.value != "" ==> r == placeholder
    ensures labelText == "" ==> r == placeholder
  {
    if (placeholder.None? || placeholder.value == "") && labelText != "" then Some("Введите " + ToLower(labelText))
    else placeholder
  }

  const RequiredMessage := "Это поле обязательно для заполнения"
  const EmailMessage := "Введите корректный email адрес"
  const PhoneMessage := "Введите корректный номер телефона"

  /** The outcome of the checks of `validateField`: the message of the last
      check that fails, or `None` when all pass. */
  function FieldError(isRequired: bool, kind: string, value: string): (r: Option<string>)
    ensures r == Some(PhoneMessage) <==> kind == "tel" && value != "" && !IsValidPhone(value)
    ensures r == Some(EmailMessage) <==> kind == "email" && value != "" && !IsValidEmail(value)
    ensures r == Some(RequiredMessage) <==> (isRequired && Trim(value) == ""
      && !(kind == "email" && value != "" && !IsValidEmail(value))
      && !(kind == "tel" && value != "" && !IsValidPhone(value)))
    ensures r.None? <==> (!(isRequired && Trim(value) == "")
      && !(kind == "email" && value != "" && !IsValidEmail(value))
      && !(kind == "tel" && value != "" && !IsValidPhone(value)))
  {
    var r1 := if isRequired && Trim(value) == "" then Some(RequiredMessage) else None;
    var r2 := if kind == "email" && value != "" && !IsValidEmail(value) then Some(EmailMessage) else r1;
    if kind == "tel" && value != "" && !IsValidPhone(value) then Some(PhoneMessage) else r2
  }

  /** A field built by `createHorizonFormField`, with what validation sees
      and changes: the input's classes and the error elements inside the
      field, in document order. */
  class FormField {
    var required: bool
    var labelText: string
    var labelRequired: bool
    var placeholder: Option<string>
    var help: Option<string>
    var kind: string
    var value: string
    var inputClasses: set<string>
    var errors: seq<string>

    /** At most one error element; the label carries `required` exactly
        when it exists and the input is required. */
    predicate Valid()
      reads this
    {
      |errors| <= 1 && (labelRequired <==> required && labelText != "")
    }

    constructor (f: Input)
      ensures Valid()
      ensures labelText == LabelText(f) && required == f.required
      ensures labelRequired == (f.required && LabelText(f) != "")
      ensures placeholder == NewPlaceholder(f.placeholder, LabelText(f)) && help == HelpText(f)
      ensures kind == f.kind && value == f.value
      ensures inputClasses == {"horizon-form-input"} && errors == []
    {
      var text := ExtractLabelText(f);
      labelText := text;
      required := f.required;
      labelRequired := f.required && text != "";
      placeholder := NewPlaceholder(f.placeholder, text);
      help := HelpText(f);
      kind := f.kind;
      value := f.value;
      inputClasses := {"horizon-form-input"};
      errors := [];
    }

    /** `showFieldError`: the input gets class `error`; the first error
        element shows the message, one is added when there is none. */
    method ShowFieldError(message: string)
      requires Valid()
      modifies this
      ensures Valid()
      ensures inputClasses == old(inputClasses) + {"error"}
      ensures errors == [message]
      ensures required == old(required) && labelText == old(labelText) && labelRequired == old(labelRequired)
      ensures placeholder == old(placeholder) && help == old(help) && kind == old(kind) && value == old(value)
    {
      inputClasses := inputClasses + {"error"};
      if errors == [] {
        errors := errors + [message];
      } else {
        errors := errors[0 := message];
      }
    }

    /** `clearFieldError`: class `error` goes and the first error element is
        removed. */
    method ClearFieldError()
      requires Valid()
      modifies this
      ensures Valid()
      ensures inputClasses == old(inputClasses) - {"error"}
      ensures errors == []
      ensures required == old(required) && labelText == old(labelText) && labelRequired == old(labelRequired)
      ensures placeholder == old(placeholder) && help == old(help) && kind == old(kind) && value == old(value)
    {
      inputClasses := inputClasses - {"error"};
      if errors != [] {
        errors := errors[1..];
      }
    }

    /** `validateField`. Required-ness is read from the input or, when the
        input lacks it, from the label; a field without a label then throws
        (`threw`) and nothing changes. Otherwise the field shows the
        message of the last failing check or is cleared. */
    method ValidateField() returns (threw: bool, isValid: bool)
      requires Valid()
      modifies this
      ensures Valid()
      ensures threw <==> !required && labelText == ""
      ensures threw ==> errors == old(errors) && inputClasses == old(inputClasses)
      ensures !threw ==> isValid == FieldError(required, kind, value).None?
      ensures !threw && !isValid ==> errors == [FieldError(required, kind, value).value] && "error" in inputClasses
      ensures !threw && isValid ==> errors == [] && "error" !in inputClasses
      ensures required == old(required) && labelText == old(labelText) && labelRequired == old(labelRequired)
      ensures placeholder == old(placeholder) && help == old(help) && kind == old(kind) && value == old(value)
    {
      if !required && labelText == "" {
        threw := true;
        isValid := false;
        return;
      }
      threw := false;
      var isRequired := required || labelRequired;
      var error := FieldError(isRequired, kind, value);
      isValid := error.None?;
      if !isValid {
        ShowFieldError(error.value);
      } else {
        ClearFieldError();
      }
    }

    /** The `input` listener: the user's new value, then the error is
        cleared. */
    method OnInput(newValue: string)
      requires Valid()
      modifies this
      ensures Valid()
      ensures value == newValue && errors == [] && inputClasses == old(inputClasses) - {"error"}
      ensures required == old(required) && labelText == old(labelText) && labelRequired == old(labelRequired)
      ensures placeholder == old(placeholder) && help == old(help) && kind == old(kind)
    {
      value := newValue;
      ClearFieldError();
    }
  }

  /** A required field whose value is blank fails with the required
      message unless a later check fails too. */
  lemma BlankRequiredFails(kind: string, value: string)
    requires Trim(value) == "" && kind != "email" && kind != "tel"
    ensures FieldError(true, kind, value) == Some(RequiredMessage)
    ensures FieldError(false, kind, value) == None
  {
  }

  // ---- email and telephone

  /** No white space and no '@'. */
  predicate NoSpaceOrAt(s: string) {
    forall i :: 0 <= i < |s| ==> !IsSpace(s[i]) && s[i] != '@'
  }

  /** `isValidEmail`, the test of `^[^\s@]+@[^\s@]+\.[^\s@]+$`, read off
      the first '@': a non-empty local part, and a domain without white
      space or '@' that has a '.' neither first nor last. */
  function IsValidEmail(s: string): (r: bool)
    ensures r ==> forall j :: 0 <= j < |s| ==> !IsSpace(s[j]) && (s[j] == '@' <==> j == IndexOf(s, '@'))
  {
    var i := IndexOf(s, '@');
    i < |s| && 0 < i && NoSpaceOrAt(s[..i])
    && var domain := s[i + 1..];
    NoSpaceOrAt(domain) && |domain| >= 3 && '.' in domain[1..|domain| - 1]
  }

  /** The pattern's own reading: an '@' at `i` and a '.' at `k` split `s`
      into three non-empty runs without white space or '@'. */
  predicate EmailSplit(s: string, i: int, k: int) {
    0 < i && i + 1 < k && k + 1 < |s| && s[i] == '@' && s[k] == '.'
    && NoSpaceOrAt(s[..i]) && NoSpaceOrAt(s[i + 1..k]) && NoSpaceOrAt(s[k + 1..])
  }

  /** A valid address splits as the pattern reads it. */
  lemma EmailHasSplit(s: string)
    requires IsValidEmail(s)
    ensures exists i, k :: EmailSplit(s, i, k)
  {
    var i := IndexOf(s, '@');
    var domain := s[i + 1..];
    var mid := domain[1..|domain| - 1];
    var d :| 0 <= d < |mid| && mid[d] == '.';
    var k := i + 2 + d;
    assert s[k] == mid[d];
    NoSpaceOrAtSlice(domain, 0, d + 1);
    NoSpaceOrAtSlice(domain, d + 2, |domain|);
    assert s[i + 1..k] == domain[..d + 1];
    assert s[k + 1..] == domain[d + 2..];
    assert EmailSplit(s, i, k);
  }

  /** A split as the pattern reads it passes the check. */
  lemma SplitIsEmail(s: string, i: int, k: int)
    requires EmailSplit(s, i, k)
    ensures IsValidEmail(s)
  {
    assert forall j :: 0 <= j < i ==> s[j] == s[..i][j];
    assert IndexOf(s, '@') == i;
    var domain := s[i + 1..];
    assert domain == s[i + 1..k] + ['.'] + s[k + 1..];
    NoSpaceOrAtJoin(s[i + 1..k], s[k + 1..]);
    assert domain[1..|domain| - 1][k - i - 2] == '.';
  }

  lemma NoSpaceOrAtSlice(s: string, a: int, b: int)
    requires NoSpaceOrAt(s) && 0 <= a <= b <= |s|
    ensures NoSpaceOrAt(s[a..b])
  {
    assert forall j :: 0 <= j < b - a ==> s[a..b][j] == s[a + j];
  }

  lemma NoSpaceOrAtJoin(a: string, b: string)
    requires NoSpaceOrAt(a) && NoSpaceOrAt(b)
    ensures NoSpaceOrAt(a + ['.'] + b)
  {
    var c := a + ['.'] + b;
    assert forall j :: 0 <= j < |c| ==> c[j] == (if j < |a| then a[j] else if j == |a| then '.' else b[j - |a| - 1]);
  }

  /** The check and the pattern agree on every string. */
  lemma EmailMatchesPattern(s: string)
    ensures IsValidEmail(s) <==> exists i, k :: EmailSplit(s, i, k)
  {
    if IsValidEmail(s) {
      EmailHasSplit(s);
    }
    if exists i, k :: EmailSplit(s, i, k) {
      var i, k :| EmailSplit(s, i, k);
      SplitIsEmail(s, i, k);
    }
  }

  /** The characters `replace(/[\s\-\(\)]/g, '')` removes. */
  predicate IsPhoneSeparator(c: char) {
    IsSpace(c) || c == '-' || c == '(' || c == ')'
  }

  function StripSeparators(s: string): (r: string)
    ensures forall i :: 0 <= i < |r| ==> !IsPhoneSeparator(r[i])
  {
    if s == [] then []
    else if IsPhoneSeparator(s[0]) then StripSeparators(s[1..])
    else [s[0]] + StripSeparators(s[1..])
  }

  lemma {:induction false} StripSeparatorsAppend(a: string, b: string)
    ensures StripSeparators(a + b) == StripSeparators(a) + StripSeparators(b)
  {
    if a == [] {
      assert a + b == b;
    } else {
      assert (a + b)[0] == a[0];
      assert (a + b)[1..] == a[1..] + b;
      StripSeparatorsAppend(a[1..], b);
    }
  }

  /** `^[\+]?[1-9][\d]{0,15}$`: an optional '+', then one to sixteen
      digits, the first not '0'. */
  predicate PhonePattern(t: string) {
    if |t| > 0 && t[0] == '+' then PhoneDigits(t[1..]) else PhoneDigits(t)
  }

  /** `[1-9][\d]{0,15}`. */
  predicate PhoneDigits(u: string) {
    1 <= |u| <= 16 && '1' <= u[0] <= '9' && forall i :: 0 <= i < |u| ==> '0' <= u[i] <= '9'
  }

  /** `isValidPhone`. */
  function IsValidPhone(s: string): (r: bool)
    ensures r ==> 1 <= |StripSeparators(s)| <= 17
  {
    PhonePattern(StripSeparators(s))
  }

  /** Separators anywhere do not change the verdict. */
  lemma SeparatorIgnored(a: string, c: char, b: string)
    requires IsPhoneSeparator(c)
    ensures IsValidPhone(a + [c] + b) == IsValidPhone(a + b)
  {
    StripSeparatorsAppend(a + [c], b);
    StripSeparatorsAppend(a, [c]);
    StripSeparatorsAppend(a, b);
    assert StripSeparators([c]) == StripSeparators([c][1..]);
    assert [c][1..] == [];
    assert StripSeparators(a + [c]) == StripSeparators(a);
  }

  /** A valid number has one to sixteen digits and nothing but digits
      after an optional leading '+'. */
  lemma ValidPhoneShape(s: string)
    requires IsValidPhone(s)
    ensures 1 <= |StripSeparators(s)| <= 17
    ensures forall i :: 0 <= i < |StripSeparators(s)| ==>
      ('0' <= StripSeparators(s)[i] <= '9' || (i == 0 && StripSeparators(s)[i] == '+'))
  {
    var t := StripSeparators(s);
    var u := if |t| > 0 && t[0] == '+' then t[1..] else t;
    assert PhoneDigits(u);
    forall i | 0 <= i < |t|
      ensures '0' <= t[i] <= '9' || (i == 0 && t[i] == '+')
    {
      if t[0] == '+' {
        if i > 0 {
          assert t[i] == u[i - 1];
        }
      } else {
        assert t[i] == u[i];
      }
    }
  }

  // ---- buttons

  const PrimaryClass := "horizon-button horizon-button-primary"
  const SecondaryClass := "horizon-button horizon-button-secondary"
  const DangerClass := "horizon-button horizon-button-danger"

  /** The class `createHorizonButton` gives a button of `type` `kind` and
      text `text`. */
  function ButtonClass(kind: string, text: string): (r: string)
    ensures r == PrimaryClass || r == SecondaryClass || r == DangerClass
  {
    var t := ToLower(text);
    if kind == "submit" || Contains(t, "сохранить") || Contains(t, "создать") then PrimaryClass
    else if Contains(t, "отмена") || Contains(t, "закрыть") then SecondaryClass
    else if Contains(t, "удалить") then DangerClass
    else SecondaryClass
  }

  /** The style rules: a submit button or one that saves or creates is
      primary; one that deletes, and neither saves, creates, cancels nor
      closes, is danger; all others are secondary. */
  lemma ButtonClassRules(kind: string, text: string)
    ensures var t := ToLower(text);
      && (ButtonClass(kind, text) == PrimaryClass <==> kind == "submit" || Contains(t, "сохранить") || Contains(t, "создать"))
      && (ButtonClass(kind, text) == DangerClass <==> (kind != "submit" && !Contains(t, "сохранить") && !Contains(t, "создать")
           && !Contains(t, "отмена") && !Contains(t, "закрыть") && Contains(t, "удалить")))
  {
  }

  /** `getButtonIcon`'s table, in its order. */
  const ButtonIcons: seq<(string, string)> := [
    ("сохранить", "💾"), ("создать", "➕"), ("добавить", "➕"), ("удалить", "🗑️"),
    ("отмена", "❌"), ("закрыть", "❌"), ("поиск", "🔍"), ("фильтр", "📊"),
    ("экспорт", "📤"), ("импорт", "📥"), ("печать", "🖨️"), ("обновить", "🔄")]

  /** `getButtonIcon`: the icon of the first key the lower-cased text
      contains, `null` when it contains none. */
  function GetButtonIcon(text: string): (r: Option<string>)
    ensures r.Some? ==> exists i :: 0 <= i < |ButtonIcons| && ButtonIcons[i].1 == r.value && Contains(ToLower(text), ButtonIcons[i].0)
    ensures r.None? <==> forall i :: 0 <= i < |ButtonIcons| ==> !Contains(ToLower(text), ButtonIcons[i].0)
  {
    FirstContained(ButtonIcons, ToLower(text))
  }

  /** The icon does not depend on letter case. */
  lemma ButtonIconIgnoresCase(text: string)
    ensures GetButtonIcon(ToLower(text)) == GetButtonIcon(text)
  {
    LowerOfLower(text);
  }

  /** A save button is primary and gets the floppy icon. */
  lemma SaveButton(kind: string, text: string)
    requires Contains(ToLower(text), "сохранить")
    ensures ButtonClass(kind, text) == PrimaryClass
    ensures GetButtonIcon(text) == Some("💾")
  {
    FirstContainedIs(ButtonIcons, ToLower(text), 0);
  }

  /** A button built by `createHorizonButton`: its class, the icon put in
      front of its text, and the text. */
  datatype Button = Button(className: string, icon: Option<string>, text: string)

  /** `createHorizonButton`: the class by the rules; an icon only when the
      button had no `span` and the text has one. */
  function CreateHorizonButton(kind: string, text: string, hasSpan: bool): (b: Button)
    ensures b.className == ButtonClass(kind, text) && b.text == text
    ensures b.icon.Some? <==> !hasSpan && GetButtonIcon(text).Some?
    ensures b.icon.Some? ==> b.icon == GetButtonIcon(text)
  {
    Button(ButtonClass(kind, text), if hasSpan then None else GetButtonIcon(text), text)
  }
}
