/** The logical registry: operator-named groups of per-essence device IDs,
    one table for sources and one for receivers, kept in the order the
    registry file lists them (services/logical.py). */
module Logical {
  import opened Wrappers
  import opened Text

  /** The three sub-streams a logical group may bundle, in the order the bridge visits them. */
  datatype Essence = Video | Audio | Data

  const Essences: seq<Essence> := [Video, Audio, Data]

  lemma {:induction false} EssencesComplete(e: Essence)
    ensures e in Essences
  {
  }

  /** Python truthiness of an optional text field: present and non-empty. */
  predicate Present(o: Option<string>) {
    o.Some? && o.value != ""
  }

  /** One logical group record: its ID (absent when the record lacks an `id` key)
      and one optional device resource ID per essence. */
  datatype Group = Group(id: Option<int>, video: Option<string>, audio: Option<string>, data: Option<string>) {
    /** `record.get(essence)` */
    function Get(e: Essence): Option<string> {
      match e
      case Video => video
      case Audio => audio
      case Data => data
    }
  }

  /** A name and its group; a table lists them in registry (dict insertion) order. */
  datatype Entry = Entry(name: string, group: Group)

  type Table = seq<Entry>

  /** The whole registry file: `{"sources": {...}, "receivers": {...}}`. */
  datatype Logicals = Logicals(sources: Table, receivers: Table)

  /** Names are dictionary keys, so they never repeat within a table. */
  ghost predicate NamesUnique(t: Table) {
    forall i, j :: 0 <= i < j < |t| ==> t[i].name != t[j].name
  }

  /** The registry invariant: no two groups of one table share an ID. */
  ghost predicate IdsUnique(t: Table) {
    forall i, j :: 0 <= i < j < |t| && t[i].group.id.Some? ==> t[i].group.id != t[j].group.id
  }

  /** `load_logical_ids`: the file's content, or two empty tables when there is no file. */
  function LoadLogicalIds(file: Option<Logicals>): (r: Logicals)
    ensures file.None? ==> r.sources == [] && r.receivers == []
    ensures file.Some? ==> r == file.value
  {
    match file
    case Some(l) => l
    case None => Logicals([], [])
  }

  /** An ID as a caller hands it over: an integer (the emulator) or request text (the REST API). */
  datatype IdArg = IntArg(n: int) | TextArg(s: string)

  /** `str(arg)` */
  function ArgText(a: IdArg): string {
    match a
    case IntArg(n) => IntToString(n)
    case TextArg(s) => s
  }

  /** `str(record.get("id"))`: a record without an ID renders as `None`. */
  function IdText(id: Option<int>): string {
    match id
    case Some(n) => IntToString(n)
    case None => "None"
  }

  /** No integer renders as `None`. */
  lemma {:induction false} NoneIsNoInt(n: int)
    ensures IntToString(n) != "None"
  {
    var m: nat := if n < 0 then -n else n;
    NatToStringDigits(m);
    assert IntToString(n)[0] == '-' || IsDigit(IntToString(n)[0]);
  }

  /** The `str()` comparison of `get_logical_pair` on an integer argument is ID equality. */
  lemma {:induction false} IdTextMatchesInt(id: Option<int>, n: int)
    ensures IdText(id) == ArgText(IntArg(n)) <==> id == Some(n)
  {
    match id
    case Some(m) => IntToStringInjective(m, n);
    case None => NoneIsNoInt(n);
  }

  /** Position of the first entry whose ID equals `id` (the `next(...)` scans comparing integers). */
  function FindById(t: Table, id: int): (r: Option<nat>)
    ensures r.Some? ==> r.value < |t| && t[r.value].group.id == Some(id)
    ensures r.Some? ==> forall k :: 0 <= k < r.value ==> t[k].group.id != Some(id)
    ensures r.None? ==> forall k :: 0 <= k < |t| ==> t[k].group.id != Some(id)
    decreases |t|
  {
    if t == [] then None
    else if t[0].group.id == Some(id) then Some(0)
    else
      match FindById(t[1..], id)
      case Some(k) => Some(k + 1)
      case None => None
  }

  /** Position of the first entry whose `str(id)` equals `str(arg)`. */
  function FindByText(t: Table, arg: IdArg): (r: Option<nat>)
    ensures r.Some? ==> r.value < |t| && IdText(t[r.value].group.id) == ArgText(arg)
    ensures r.Some? ==> forall k :: 0 <= k < r.value ==> IdText(t[k].group.id) != ArgText(arg)
    ensures r.None? ==> forall k :: 0 <= k < |t| ==> IdText(t[k].group.id) != ArgText(arg)
    decreases |t|
  {
    if t == [] then None
    else if IdText(t[0].group.id) == ArgText(arg) then Some(0)
    else
      match FindByText(t[1..], arg)
      case Some(k) => Some(k + 1)
      case None => None
  }

  /** The group found at an optional position. */
  function GroupAt(t: Table, k: Option<nat>): Option<Group> {
    match k
    case Some(i) => if i < |t| then Some(t[i].group) else None
    case None => None
  }

  /** `get_logical_pair(src_id, dest_id)`: the first source and the first receiver whose
      stringified ID matches, each independently None when nothing matches. */
  function GetLogicalPair(reg: Logicals, src: IdArg, dest: IdArg): (p: (Option<Group>, Option<Group>))
    ensures p.0.Some? ==> IdText(p.0.value.id) == ArgText(src)
    ensures p.0.None? <==> forall k :: 0 <= k < |reg.sources| ==> IdText(reg.sources[k].group.id) != ArgText(src)
    ensures p.1.Some? ==> IdText(p.1.value.id) == ArgText(dest)
    ensures p.1.None? <==> forall k :: 0 <= k < |reg.receivers| ==> IdText(reg.receivers[k].group.id) != ArgText(dest)
  {
    (GroupAt(reg.sources, FindByText(reg.sources, src)), GroupAt(reg.receivers, FindByText(reg.receivers, dest)))
  }

  /** Searching by `str()` with an integer finds the same entry as searching by ID equality. */
  lemma {:induction false} FindByTextOfInt(t: Table, n: int)
    ensures FindByText(t, IntArg(n)) == FindById(t, n)
    decreases |t|
  {
    if t != [] {
      IdTextMatchesInt(t[0].group.id, n);
      FindByTextOfInt(t[1..], n);
    }
  }

  /** An integer and its decimal text select the same pair, so `3` and `"3"` are interchangeable. */
  lemma {:induction false} GetLogicalPairTextOfInt(reg: Logicals, s: int, d: int)
    ensures GetLogicalPair(reg, IntArg(s), IntArg(d)) == GetLogicalPair(reg, TextArg(IntToString(s)), TextArg(IntToString(d)))
  {
  }

  /** With integer arguments the pair is the first source and first receiver carrying those IDs. */
  lemma {:induction false} GetLogicalPairById(reg: Logicals, s: int, d: int)
    ensures GetLogicalPair(reg, IntArg(s), IntArg(d)) == (GroupAt(reg.sources, FindById(reg.sources, s)), GroupAt(reg.receivers, FindById(reg.receivers, d)))
    ensures GetLogicalPair(reg, IntArg(s), IntArg(d)).0.Some? <==> exists k :: 0 <= k < |reg.sources| && reg.sources[k].group.id == Some(s)
    ensures GetLogicalPair(reg, IntArg(s), IntArg(d)).1.Some? <==> exists k :: 0 <= k < |reg.receivers| && reg.receivers[k].group.id == Some(d)
  {
    FindByTextOfInt(reg.sources, s);
    FindByTextOfInt(reg.receivers, d);
  }
}
