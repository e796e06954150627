/**
 * `generateHashtags` (supabase/functions/ingest-sms/index.ts): a tag per
 * truthy title, city, state and country, then every `#word` the notes
 * already carry, collected in a `Set` (so duplicates collapse and the first
 * insertion fixes the order) and finally stripped of the bare "#".
 */
module Hashtags {
  import opened Wrappers
  import opened Text

  /** The arguments of `generateHashtags`; None stands for null or undefined. */
  datatype HashtagArgs = HashtagArgs(
    title: Option<string>, city: Option<string>, state: Option<string>,
    country: Option<string>, notes: Option<string>)

  /** `if (args.x)`: a present, non-empty string. */
  predicate Given(x: Option<string>) {
    x.Some? && x.value != ""
  }

  /** `s.replace(/[^a-z0-9]+/g, "")`: every character outside `[a-z0-9]` removed. */
  function KeepAlnum(s: string): (r: string)
    ensures forall k :: 0 <= k < |r| ==> IsAsciiLower(r[k]) || IsAsciiDigit(r[k])
    ensures |r| <= |s|
  {
    if s == [] then []
    else if IsAsciiLower(s[0]) || IsAsciiDigit(s[0]) then [s[0]] + KeepAlnum(s[1..])
    else KeepAlnum(s[1..])
  }

  /**
   * `makeTag`; `toLower` is the engine's Unicode `toLowerCase`. The tag is
   * "#" followed only by `[a-z0-9]`: the final `trim` never has anything to strip.
   */
  function MakeTag(s: string, toLower: string -> string): (r: string)
    ensures |r| >= 1 && r[0] == '#'
    ensures forall k :: 1 <= k < |r| ==> IsAsciiLower(r[k]) || IsAsciiDigit(r[k])
  {
    var a := KeepAlnum(toLower(s));
    AlnumTag(a);
    "#" + Trim(a)
  }

  lemma AlnumTag(a: string)
    requires forall k :: 0 <= k < |a| ==> IsAsciiLower(a[k]) || IsAsciiDigit(a[k])
    ensures forall k :: 1 <= k < |"#" + Trim(a)| ==>
      IsAsciiLower(("#" + Trim(a))[k]) || IsAsciiDigit(("#" + Trim(a))[k])
  {
    AlnumTrim(a);
    var r := "#" + a;
    forall k | 1 <= k < |r| ensures IsAsciiLower(r[k]) || IsAsciiDigit(r[k]) {
      assert r[k] == a[k - 1];
    }
  }

  /** `[a-z0-9]*` is its own trim. */
  lemma AlnumTrim(a: string)
    requires forall k :: 0 <= k < |a| ==> IsAsciiLower(a[k]) || IsAsciiDigit(a[k])
    ensures Trim(a) == a
  {
    forall k | 0 <= k < |a| ensures !IsWhitespace(a[k]) {
      VisibleIsNotWhitespace(a[k]);
    }
    TrimWithoutWhitespace(a);
  }

  // ---------------- the `/#(\w+)/g` scan ----------------

  /** A tag starts at `i`: a `#` followed by a word character. */
  predicate TagStartAt(s: string, i: nat) {
    i + 1 < |s| && s[i] == '#' && IsWordChar(s[i + 1])
  }

  predicate NotWordChar(c: char) { !IsWordChar(c) }

  /** A regex match of `#(\w+)`: its start and the end of its greedy word run. */
  datatype TagMatch = TagMatch(start: nat, end: nat)

  /** `re.exec(notes)` with `re.lastIndex == from`: the leftmost match at or after `from`. */
  function NextTagMatch(s: string, from: nat): (m: Option<TagMatch>)
    requires from <= |s|
    ensures m.Some? ==> from <= m.value.start && m.value.start + 1 < m.value.end <= |s|
    ensures m.Some? ==> TagStartAt(s, m.value.start)
    ensures m.Some? ==> forall k :: m.value.start < k < m.value.end ==> IsWordChar(s[k])
    ensures m.Some? ==> m.value.end == |s| || !IsWordChar(s[m.value.end])
    ensures m.Some? ==> forall j :: from <= j < m.value.start ==> !TagStartAt(s, j)
    ensures m.None? ==> forall j :: from <= j < |s| ==> !TagStartAt(s, j)
    decreases |s| - from
  {
    if from == |s| then None
    else if TagStartAt(s, from) then Some(TagMatch(from, SpanEnd(s, from + 1, NotWordChar)))
    else NextTagMatch(s, from + 1)
  }

  /** `"#" + m[1].toLowerCase()`: the word characters of a match are ASCII, so lower-casing them is ASCII folding. */
  function TagText(s: string, m: TagMatch): string
    requires m.start < m.end <= |s|
  {
    "#" + AsciiLowerString(s[m.start + 1..m.end])
  }

  /** The tags the notes produce, from index `from` on, in the order the scan finds them. */
  function NoteTagsFrom(s: string, from: nat): (r: seq<string>)
    requires from <= |s|
    ensures 2 * |r| <= |s| - from
    decreases |s| - from
  {
    match NextTagMatch(s, from)
    case None => []
    case Some(m) => [TagText(s, m)] + NoteTagsFrom(s, m.end)
  }

  /** A note tag is "#" followed by at least one lower-case word character. */
  lemma {:induction false} NoteTagShape(s: string, from: nat)
    requires from <= |s|
    ensures forall t :: t in NoteTagsFrom(s, from) ==>
      |t| > 1 && t[0] == '#' && forall k :: 1 <= k < |t| ==> IsWordChar(t[k]) && !IsAsciiUpper(t[k])
    decreases |s| - from
  {
    match NextTagMatch(s, from)
    case None =>
    case Some(m) =>
      NoteTagShape(s, m.end);
  }

  // ---------------- the Set ----------------

  /** `set.add(t)` on an insertion-ordered set. */
  function Insert(tags: seq<string>, t: string): seq<string> {
    if t in tags then tags else tags + [t]
  }

  function InsertAll(tags: seq<string>, ts: seq<string>): seq<string>
    decreases |ts|
  {
    if ts == [] then tags else InsertAll(Insert(tags, ts[0]), ts[1..])
  }

  predicate Distinct(s: seq<string>) {
    forall i, j :: 0 <= i < j < |s| ==> s[i] != s[j]
  }

  /** The reference meaning of insertion order: each element kept at its first occurrence only. */
  function KeepFirst(xs: seq<string>): (r: seq<string>)
    decreases |xs|
  {
    if xs == [] then []
    else
      var init := xs[..|xs| - 1];
      var last := xs[|xs| - 1];
      KeepFirst(init) + if last in init then [] else [last]
  }

  lemma {:induction false} InsertAllAppend(tags: seq<string>, xs: seq<string>, ys: seq<string>)
    ensures InsertAll(tags, xs + ys) == InsertAll(InsertAll(tags, xs), ys)
    decreases |xs|
  {
    if xs == [] {
      assert xs + ys == ys;
    } else {
      assert (xs + ys)[1..] == xs[1..] + ys;
      InsertAllAppend(Insert(tags, xs[0]), xs[1..], ys);
    }
  }

  lemma {:induction false} InsertAllMembers(tags: seq<string>, xs: seq<string>)
    ensures forall t :: t in InsertAll(tags, xs) <==> t in tags || t in xs
    decreases |xs|
  {
    if xs != [] {
      InsertAllMembers(Insert(tags, xs[0]), xs[1..]);
      assert forall t :: t in xs <==> t == xs[0] || t in xs[1..];
    }
  }

  lemma {:induction false} InsertAllDistinct(tags: seq<string>, xs: seq<string>)
    requires Distinct(tags)
    ensures Distinct(InsertAll(tags, xs))
    decreases |xs|
  {
    if xs != [] {
      InsertAllDistinct(Insert(tags, xs[0]), xs[1..]);
    }
  }

  /** Filling an empty `Set` keeps each element at its first insertion. */
  lemma {:induction false} InsertAllIsKeepFirst(xs: seq<string>)
    ensures InsertAll([], xs) == KeepFirst(xs)
    decreases |xs|
  {
    if xs != [] {
      var init := xs[..|xs| - 1];
      var last := xs[|xs| - 1];
      assert xs == init + [last];
      InsertAllIsKeepFirst(init);
      InsertAllAppend([], init, [last]);
      InsertAllMembers([], init);
    }
  }

  /** `Array.from(tags).filter((t) => t.length > 1)`. */
  function FilterLong(tags: seq<string>): (r: seq<string>)
    ensures forall t :: t in r <==> t in tags && |t| > 1
    decreases |tags|
  {
    if tags == [] then []
    else if |tags[0]| > 1 then [tags[0]] + FilterLong(tags[1..])
    else FilterLong(tags[1..])
  }

  lemma {:induction false} FilterLongDistinct(tags: seq<string>)
    requires Distinct(tags)
    ensures Distinct(FilterLong(tags))
    decreases |tags|
  {
    if tags != [] {
      FilterLongDistinct(tags[1..]);
    }
  }

  // ---------------- generateHashtags ----------------

  /** The tag a field contributes: none unless the field is given. */
  function OptTag(x: Option<string>, toLower: string -> string): seq<string> {
    if Given(x) then [MakeTag(x.value, toLower)] else []
  }

  /** The tags of the four fields, in the order `generateHashtags` adds them. */
  function FieldTags(args: HashtagArgs, toLower: string -> string): seq<string> {
    OptTag(args.title, toLower) + OptTag(args.city, toLower)
    + OptTag(args.state, toLower) + OptTag(args.country, toLower)
  }

  /** `if (x) tags.add(makeTag(x))`. */
  function AddField(tags: seq<string>, x: Option<string>, toLower: string -> string): seq<string> {
    if Given(x) then Insert(tags, MakeTag(x.value, toLower)) else tags
  }

  /** The set after the four field adds. */
  function FieldSet(args: HashtagArgs, toLower: string -> string): seq<string> {
    AddField(AddField(AddField(AddField([], args.title, toLower), args.city, toLower), args.state, toLower), args.country, toLower)
  }

  lemma AddFieldIsInsertAll(tags: seq<string>, added: seq<string>, x: Option<string>, toLower: string -> string)
    requires tags == InsertAll([], added)
    ensures AddField(tags, x, toLower) == InsertAll([], added + OptTag(x, toLower))
  {
    InsertAllAppend([], added, OptTag(x, toLower));
    if !Given(x) {
      assert added + OptTag(x, toLower) == added;
    }
  }

  /** The four field adds fill the set with the field tags, first insertion first. */
  lemma FieldSetIsInsertAll(args: HashtagArgs, toLower: string -> string)
    ensures FieldSet(args, toLower) == InsertAll([], FieldTags(args, toLower))
  {
    var t0 := AddField([], args.title, toLower);
    var a0 := OptTag(args.title, toLower);
    AddFieldIsInsertAll([], [], args.title, toLower);
    assert [] + a0 == a0;
    var t1 := AddField(t0, args.city, toLower);
    var a1 := a0 + OptTag(args.city, toLower);
    AddFieldIsInsertAll(t0, a0, args.city, toLower);
    var t2 := AddField(t1, args.state, toLower);
    var a2 := a1 + OptTag(args.state, toLower);
    AddFieldIsInsertAll(t1, a1, args.state, toLower);
    AddFieldIsInsertAll(t2, a2, args.country, toLower);
  }

  lemma OptTagShape(x: Option<string>, toLower: string -> string)
    ensures forall t :: t in OptTag(x, toLower) ==> |t| >= 1 && t[0] == '#'
  {
    forall u | u in OptTag(x, toLower) ensures |u| >= 1 && u[0] == '#' {
      TagShape(u, x.value, toLower);
    }
  }

  lemma TagShape(u: string, s: string, toLower: string -> string)
    requires u == MakeTag(s, toLower)
    ensures |u| >= 1 && u[0] == '#'
  {
  }

  lemma FieldTagsShape(args: HashtagArgs, toLower: string -> string)
    ensures forall t :: t in FieldTags(args, toLower) ==> |t| >= 1 && t[0] == '#'
  {
    OptTagShape(args.title, toLower);
    OptTagShape(args.city, toLower);
    OptTagShape(args.state, toLower);
    OptTagShape(args.country, toLower);
  }

  /** Every tag `generateHashtags` adds to its set, in order of addition. */
  function Candidates(args: HashtagArgs, toLower: string -> string): seq<string> {
    FieldTags(args, toLower) + if Given(args.notes) then NoteTagsFrom(args.notes.value, 0) else []
  }

  /** The result of `generateHashtags`. */
  function HashtagsOf(args: HashtagArgs, toLower: string -> string): (r: seq<string>)
    ensures forall t :: t in r <==> t in Candidates(args, toLower) && |t| > 1
    ensures Distinct(r)
  {
    var c := Candidates(args, toLower);
    InsertAllMembers([], c);
    InsertAllDistinct([], c);
    FilterLongDistinct(InsertAll([], c));
    FilterLong(InsertAll([], c))
  }

  /**
   * What `generateHashtags` promises: every tag starts with "#" and has more
   * than the "#", none repeats, the tags are exactly the long candidates, and
   * they come in first-insertion order.
   */
  lemma {:induction false} HashtagsSpec(args: HashtagArgs, toLower: string -> string)
    ensures var r := HashtagsOf(args, toLower);
      && (forall t :: t in r ==> |t| > 1 && t[0] == '#')
      && Distinct(r)
      && (forall t :: t in r <==> t in Candidates(args, toLower) && |t| > 1)
      && r == FilterLong(KeepFirst(Candidates(args, toLower)))
  {
    var c := Candidates(args, toLower);
    InsertAllMembers([], c);
    InsertAllDistinct([], c);
    FilterLongDistinct(InsertAll([], c));
    InsertAllIsKeepFirst(c);
    FieldTagsShape(args, toLower);
    if Given(args.notes) {
      NoteTagShape(args.notes.value, 0);
    }
  }

  /** The set after the field adds, then filled with the note tags, is the set of all candidates. */
  lemma HashtagsFromFieldSet(args: HashtagArgs, toLower: string -> string)
    ensures HashtagsOf(args, toLower)
      == FilterLong(InsertAll(FieldSet(args, toLower), if Given(args.notes) then NoteTagsFrom(args.notes.value, 0) else []))
  {
    FieldSetIsInsertAll(args, toLower);
    var notes := if Given(args.notes) then NoteTagsFrom(args.notes.value, 0) else [];
    assert Candidates(args, toLower) == FieldTags(args, toLower) + notes;
    InsertAllAppend([], FieldTags(args, toLower), notes);
  }

  /** One round of the `re.exec` loop: the set takes the match's tag, the scan resumes after the match. */
  lemma ScanStep(tags: seq<string>, notes: string, from: nat)
    requires from <= |notes| && NextTagMatch(notes, from).Some?
    ensures var m := NextTagMatch(notes, from).value;
      InsertAll(tags, NoteTagsFrom(notes, from)) == InsertAll(Insert(tags, TagText(notes, m)), NoteTagsFrom(notes, m.end))
  {
    var m := NextTagMatch(notes, from).value;
    var ts := NoteTagsFrom(notes, from);
    assert ts == [TagText(notes, m)] + NoteTagsFrom(notes, m.end);
    assert ts[1..] == NoteTagsFrom(notes, m.end);
  }

  /** `generateHashtags`: four conditional adds, then the `re.exec` loop over the notes, then the filter. */
  method GenerateHashtags(args: HashtagArgs, toLower: string -> string) returns (result: seq<string>)
    ensures result == HashtagsOf(args, toLower)
  {
    var tags: seq<string> := [];
    if Given(args.title) {
      tags := Insert(tags, MakeTag(args.title.value, toLower));
    }
    if Given(args.city) {
      tags := Insert(tags, MakeTag(args.city.value, toLower));
    }
    if Given(args.state) {
      tags := Insert(tags, MakeTag(args.state.value, toLower));
    }
    if Given(args.country) {
      tags := Insert(tags, MakeTag(args.country.value, toLower));
    }
    assert tags == FieldSet(args, toLower);
    HashtagsFromFieldSet(args, toLower);
    if Given(args.notes) {
      tags := ScanNotes(tags, args.notes.value);
    }
    result := FilterLong(tags);
  }

  /** The `re.exec` loop: each match, lower-cased, is added to the set in the order found. */
  method ScanNotes(fieldTags: seq<string>, notes: string) returns (tags: seq<string>)
    ensures tags == InsertAll(fieldTags, NoteTagsFrom(notes, 0))
  {
    tags := fieldTags;
    var lastIndex := 0;
    var m := NextTagMatch(notes, lastIndex);
    while m.Some?
      invariant lastIndex <= |notes|
      invariant m == NextTagMatch(notes, lastIndex)
      invariant InsertAll(tags, NoteTagsFrom(notes, lastIndex)) == InsertAll(fieldTags, NoteTagsFrom(notes, 0))
      decreases |notes| - lastIndex
    {
      ScanStep(tags, notes, lastIndex);
      tags := Insert(tags, TagText(notes, m.value));
      lastIndex := m.value.end;
      m := NextTagMatch(notes, lastIndex);
    }
    assert NoteTagsFrom(notes, lastIndex) == [];
  }

  /** Positions where no tag starts are skipped by the scan. */
  lemma {:induction false} ScanSkips(s: string, from: nat, until: nat)
    requires from <= until <= |s|
    requires forall j :: from <= j < until ==> !TagStartAt(s, j)
    ensures NextTagMatch(s, from) == NextTagMatch(s, until)
    decreases until - from
  {
    if from < until {
      ScanSkips(s, from + 1, until);
    }
  }

  const ExampleNotes := "Hi #bbq #KC"

  /** No tag starts in "Hi ". */
  lemma ExampleNoTagBefore()
    ensures forall j :: 0 <= j < 3 ==> !TagStartAt(ExampleNotes, j)
  {
    forall j | 0 <= j < 3 ensures !TagStartAt(ExampleNotes, j) {
      assert ExampleNotes[j] != '#';
    }
  }

  /** The word run after the first "#" is "bbq". */
  lemma ExampleFirstRun()
    ensures SpanEnd(ExampleNotes, 4, NotWordChar) == 7
  {
    assert NotWordChar(ExampleNotes[7]);
  }

  /** Where a tag starts, `exec` returns it, ending where its word run ends. */
  lemma MatchAtTagStart(s: string, from: nat, end: nat)
    requires from < |s| && TagStartAt(s, from) && SpanEnd(s, from + 1, NotWordChar) == end
    ensures NextTagMatch(s, from) == Some(TagMatch(from, end))
  {
  }

  lemma ExampleFirstMatch()
    ensures NextTagMatch(ExampleNotes, 0) == Some(TagMatch(3, 7))
  {
    ExampleNoTagBefore();
    ScanSkips(ExampleNotes, 0, 3);
    ExampleFirstRun();
    assert ExampleNotes[4] == 'b';
    MatchAtTagStart(ExampleNotes, 3, 7);
  }

  lemma ExampleSecondMatch()
    ensures NextTagMatch(ExampleNotes, 7) == Some(TagMatch(8, 11))
  {
    ScanSkips(ExampleNotes, 7, 8);
    assert ExampleNotes[9] == 'K';
    assert SpanEnd(ExampleNotes, 9, NotWordChar) == 11;
    MatchAtTagStart(ExampleNotes, 8, 11);
  }

  lemma ExampleScan()
    ensures NoteTagsFrom(ExampleNotes, 0) == ["#bbq", "#kc"]
  {
    ExampleFirstMatch();
    ExampleSecondMatch();
    ScanSkips(ExampleNotes, 11, 11);
    assert NoteTagsFrom(ExampleNotes, 11) == [];
    assert TagText(ExampleNotes, TagMatch(8, 11)) == "#kc";
    assert NoteTagsFrom(ExampleNotes, 7) == ["#kc"];
    assert ExampleNotes[4..7] == "bbq";
    assert AsciiLowerString("bbq") == "bbq";
    assert TagText(ExampleNotes, TagMatch(3, 7)) == "#bbq";
  }

  /** Notes "Hi #bbq #KC" and no other field give the tags "#bbq" and "#kc". */
  lemma {:induction false} NotesExample(toLower: string -> string)
    ensures HashtagsOf(HashtagArgs(None, None, None, None, Some(ExampleNotes)), toLower) == ["#bbq", "#kc"]
  {
    var args := HashtagArgs(None, None, None, None, Some(ExampleNotes));
    ExampleScan();
    assert FieldTags(args, toLower) == [];
    assert Candidates(args, toLower) == ["#bbq", "#kc"];
    TwoLongTags("#bbq", "#kc");
  }

  /** Two different tags longer than "#" come out as they went in. */
  lemma TwoLongTags(a: string, b: string)
    requires |a| > 1 && |b| > 1 && a != b
    ensures FilterLong(InsertAll([], [a, b])) == [a, b]
  {
    assert [a, b][1..] == [b] && [b][1..] == [];
    assert Insert([], a) == [a];
    assert Insert([a], b) == [a, b];
    assert InsertAll([a, b], []) == [a, b];
    assert InsertAll([a], [b]) == [a, b];
    assert FilterLong([b]) == [b];
  }
}
