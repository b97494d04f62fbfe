/** Registry edits made from the settings pages, and the settings-file
    defaults (routes/settings.py). A table behaves as a Python dict: assigning
    an existing name replaces its record in place, a new name goes to the end,
    deleting keeps the others in order. */
module Settings {
  import opened Wrappers
  import opened Text
  import opened Logical

  /** Position of the record stored under `name`. */
  function IndexOfName(t: Table, name: string): (r: Option<nat>)
    ensures r.Some? ==> r.value < |t| && t[r.value].name == name
    ensures r.None? ==> forall k :: 0 <= k < |t| ==> t[k].name != name
    decreases |t|
  {
    if t == [] then None
    else if t[0].name == name then Some(0)
    else
      match IndexOfName(t[1..], name)
      case Some(k) => Some(k + 1)
      case None => None
  }

  /** `table.get(name)` */
  function Lookup(t: Table, name: string): Option<Group> {
    GroupAt(t, IndexOfName(t, name))
  }

  /** In a table with distinct names, the record found under a name is the one stored there. */
  lemma {:induction false} LookupAt(t: Table, k: nat)
    requires NamesUnique(t) && k < |t|
    ensures Lookup(t, t[k].name) == Some(t[k].group)
  {
  }

  /** `table[name] = g` */
  function Put(t: Table, name: string, g: Group): (r: Table)
    requires NamesUnique(t)
    ensures NamesUnique(r)
    ensures Lookup(r, name) == Some(g)
    ensures forall n :: n != name ==> Lookup(r, n) == Lookup(t, n)
    ensures |r| == if Lookup(t, name).Some? then |t| else |t| + 1
    ensures forall k :: 0 <= k < |t| && t[k].name != name ==> r[k] == t[k]
  {
    match IndexOfName(t, name)
    case Some(k) =>
      var r := t[k := Entry(name, g)];
      forall n | n != name
        ensures Lookup(r, n) == Lookup(t, n)
      {
        if i :| 0 <= i < |t| && t[i].name == n {
          LookupAt(t, i);
          LookupAt(r, i);
        }
      }
      LookupAt(r, k);
      r
    case None =>
      var r := t + [Entry(name, g)];
      forall n | n != name
        ensures Lookup(r, n) == Lookup(t, n)
      {
        if i :| 0 <= i < |t| && t[i].name == n {
          LookupAt(t, i);
          LookupAt(r, i);
        }
      }
      LookupAt(r, |t|);
      r
  }

  /** `del table[name]` when present; the table unchanged otherwise. */
  function Remove(t: Table, name: string): (r: Table)
    requires NamesUnique(t)
    ensures NamesUnique(r)
    ensures Lookup(r, name) == None
    ensures forall n :: n != name ==> Lookup(r, n) == Lookup(t, n)
    ensures Lookup(t, name).None? ==> r == t
    ensures Lookup(t, name).Some? ==> |r| == |t| - 1
    ensures forall e :: e in r <==> e in t && e.name != name
  {
    match IndexOfName(t, name)
    case Some(k) =>
      DropAtSpec(t, k);
      t[..k] + t[k + 1..]
    case None => t
  }

  /** Cutting out the entry at `k` removes exactly its name and keeps every other lookup. */
  lemma {:induction false} DropAtSpec(t: Table, k: nat)
    requires NamesUnique(t) && k < |t|
    ensures NamesUnique(t[..k] + t[k + 1..])
    ensures Lookup(t[..k] + t[k + 1..], t[k].name) == None
    ensures forall n :: n != t[k].name ==> Lookup(t[..k] + t[k + 1..], n) == Lookup(t, n)
    ensures forall e :: e in t[..k] + t[k + 1..] <==> e in t && e.name != t[k].name
  {
    var r := t[..k] + t[k + 1..];
    assert forall i :: 0 <= i < |r| ==> r[i] == (if i < k then t[i] else t[i + 1]);
    forall n | n != t[k].name
      ensures Lookup(r, n) == Lookup(t, n)
    {
      if i :| 0 <= i < |t| && t[i].name == n {
        LookupAt(t, i);
        LookupAt(r, if i < k then i else i - 1);
      }
    }
  }

  /** The IDs in use, in table order (`[v["id"] for v in table.values() if "id" in v]`). */
  function UsedIds(t: Table): (ids: seq<int>)
    ensures forall n :: n in ids <==> exists k :: 0 <= k < |t| && t[k].group.id == Some(n)
    decreases |t|
  {
    if t == [] then []
    else
      var rest := UsedIds(t[1..]);
      assert forall k :: 1 <= k < |t| ==> t[k] == t[1..][k - 1];
      match t[0].group.id
      case Some(n) => [n] + rest
      case None => rest
  }

  /** `max(used_ids, default=0)` */
  function MaxOrZero(ids: seq<int>): (m: int)
    ensures forall n :: n in ids ==> n <= m
    ensures ids == [] ==> m == 0
    ensures ids != [] ==> m in ids
    decreases |ids|
  {
    if ids == [] then 0
    else if |ids| == 1 then ids[0]
    else
      var m := MaxOrZero(ids[1..]);
      assert forall n :: n in ids ==> n == ids[0] || n in ids[1..];
      if ids[0] < m then m else ids[0]
  }

  /** The next automatic ID of a table: one above the largest in use, or 1 for an empty table. */
  function NextId(t: Table): (id: int)
    ensures forall k :: 0 <= k < |t| && t[k].group.id.Some? ==> t[k].group.id.value < id
    ensures UsedIds(t) == [] ==> id == 1
    ensures UsedIds(t) != [] ==> id - 1 in UsedIds(t)
  {
    MaxOrZero(UsedIds(t)) + 1
  }

  /** The record a form submission stores: the ID and only the non-empty essence fields. */
  function NewGroup(id: int, video: Option<string>, audio: Option<string>, data: Option<string>): (g: Group)
    ensures g.id == Some(id)
    ensures forall e :: g.Get(e).Some? ==> Present(g.Get(e))
    ensures Present(video) ==> g.video == video
    ensures Present(audio) ==> g.audio == audio
    ensures Present(data) ==> g.data == data
  {
    Group(Some(id),
          if Present(video) then video else None,
          if Present(audio) then audio else None,
          if Present(data) then data else None)
  }

  /** Storing a group whose ID no other name uses keeps IDs unique. */
  lemma {:induction false} PutKeepsIdsUnique(t: Table, name: string, g: Group)
    requires NamesUnique(t) && IdsUnique(t)
    requires g.id.Some?
    requires forall k :: 0 <= k < |t| && t[k].name != name ==> t[k].group.id != g.id
    ensures IdsUnique(Put(t, name, g))
  {
    var r := Put(t, name, g);
    forall i, j | 0 <= i < j < |r| && r[i].group.id.Some?
      ensures r[i].group.id != r[j].group.id
    {
      if r[i].name == name {
        assert r[j].name != name;
        assert j < |t| && r[j] == t[j];
      } else if r[j].name == name {
        assert r[i] == t[i];
      } else {
        assert j < |t|;
        assert r[i] == t[i] && r[j] == t[j];
      }
    }
  }

  /** Deleting a name keeps IDs unique. */
  lemma {:induction false} RemoveKeepsIdsUnique(t: Table, name: string)
    requires NamesUnique(t) && IdsUnique(t)
    ensures IdsUnique(Remove(t, name))
  {
    match IndexOfName(t, name)
    case Some(m) =>
      assert Remove(t, name) == t[..m] + t[m + 1..];
      DropAtKeepsIdsUnique(t, m);
    case None =>
  }

  /** Cutting one entry out of a table keeps its IDs unique. */
  lemma {:induction false} DropAtKeepsIdsUnique(t: Table, m: nat)
    requires IdsUnique(t) && m < |t|
    ensures IdsUnique(t[..m] + t[m + 1..])
  {
    var r := t[..m] + t[m + 1..];
    forall i, j | 0 <= i < j < |r| && r[i].group.id.Some?
      ensures r[i].group.id != r[j].group.id
    {
      var i' := if i < m then i else i + 1;
      var j' := if j < m then j else j + 1;
      assert r[i] == t[i'] && r[j] == t[j'];
    }
  }

  /** Which of the two registry tables a form addresses (`entry_type`). */
  datatype Kind = Sources | Receivers

  /** Outcome of `add_logical_id`: the group was stored under `id`, or the
      explicit ID was already in use (HTTP 400, nothing saved). */
  datatype AddOutcome = Added(id: int) | IdInUse(id: int)

  /** Outcome of `update_logical_id`: stored, the ID belongs to another name
      (HTTP 400), or the original name is not in the table (the KeyError that
      ends the request with HTTP 500 before anything is saved). */
  datatype UpdateOutcome = Updated | IdTaken(id: int) | MissingOriginal

  /** The loop of `update_logical_id` that looks for another name holding `id`. */
  method IdUsedByOther(t: Table, original: string, id: int) returns (taken: bool)
    ensures taken <==> exists k :: 0 <= k < |t| && t[k].name != original && t[k].group.id == Some(id)
  {
    var i := 0;
    while i < |t|
      invariant 0 <= i <= |t|
      invariant forall k :: 0 <= k < i ==> !(t[k].name != original && t[k].group.id == Some(id))
    {
      if t[i].name != original && t[i].group.id == Some(id) {
        return true;
      }
      i := i + 1;
    }
    return false;
  }

  /** The registry file as the settings routes load, edit and save it. */
  class LogicalRegistry {
    var sources: Table
    var receivers: Table

    /** The dict-key invariant (names are keys) plus per-table ID uniqueness. */
    ghost predicate Valid()
      reads this
    {
      NamesUnique(sources) && NamesUnique(receivers) && IdsUnique(sources) && IdsUnique(receivers)
    }

    function Table(kind: Kind): Table
      reads this
    {
      match kind
      case Sources => sources
      case Receivers => receivers
    }

    /** The registry's current content, as other components read it from the file. */
    function Snapshot(): Logicals
      reads this
    {
      Logicals(sources, receivers)
    }

    constructor (file: Option<Logicals>)
      requires file.Some? ==> NamesUnique(file.value.sources) && NamesUnique(file.value.receivers)
      ensures Snapshot() == LoadLogicalIds(file)
    {
      var l := LoadLogicalIds(file);
      sources := l.sources;
      receivers := l.receivers;
    }

    method SetTable(kind: Kind, t: Table)
      modifies this
      ensures Table(kind) == t
      ensures kind == Sources ==> receivers == old(receivers)
      ensures kind == Receivers ==> sources == old(sources)
    {
      match kind
      case Sources => sources := t;
      case Receivers => receivers := t;
    }

    /** `add_logical_id`: an explicit ID must be unused by every record of the table
        (the same name included); without one the next ID is taken. The record
        under `name` is replaced wholesale. */
    method AddLogicalId(kind: Kind, name: string, video: Option<string>, audio: Option<string>,
                        data: Option<string>, submitted: Option<int>) returns (outcome: AddOutcome)
      requires NamesUnique(sources) && NamesUnique(receivers)
      modifies this
      ensures NamesUnique(sources) && NamesUnique(receivers)
      ensures old(Valid()) ==> Valid()
      ensures outcome.IdInUse? <==> submitted.Some? && submitted.value in UsedIds(old(Table(kind)))
      ensures outcome.IdInUse? ==> outcome.id == submitted.value && Snapshot() == old(Snapshot())
      ensures outcome.Added? ==> outcome.id == if submitted.Some? then submitted.value else NextId(old(Table(kind)))
      ensures outcome.Added? ==> Table(kind) == Put(old(Table(kind)), name, NewGroup(outcome.id, video, audio, data))
      ensures kind == Sources ==> receivers == old(receivers)
      ensures kind == Receivers ==> sources == old(sources)
    {
      var t := Table(kind);
      var used := UsedIds(t);
      var groupId: int;
      match submitted {
        case Some(n) =>
          if n in used {
            return IdInUse(n);
          }
          groupId := n;
        case None =>
          groupId := NextId(t);
      }
      var g := NewGroup(groupId, video, audio, data);
      if old(Valid()) {
        PutKeepsIdsUnique(t, name, g);
      }
      SetTable(kind, Put(t, name, g));
      outcome := Added(groupId);
    }

    /** `update_logical_id`: rejects an ID held by a different name; a rename pops the
        original record and stores it under the new name; the record then holds
        the ID and all three (normalised) essence fields. */
    method UpdateLogicalId(kind: Kind, original: string, name: string, video: Option<string>,
                           audio: Option<string>, data: Option<string>, id: int) returns (outcome: UpdateOutcome)
      requires NamesUnique(sources) && NamesUnique(receivers)
      modifies this
      ensures NamesUnique(sources) && NamesUnique(receivers)
      ensures old(Valid()) ==> Valid()
      ensures outcome.IdTaken? <==> exists k :: 0 <= k < |old(Table(kind))| && old(Table(kind))[k].name != original && old(Table(kind))[k].group.id == Some(id)
      ensures outcome.MissingOriginal? <==> !outcome.IdTaken? && Lookup(old(Table(kind)), original).None?
      ensures !outcome.Updated? ==> Snapshot() == old(Snapshot())
      ensures outcome.Updated? && name != original ==>
        Table(kind) == Put(Remove(old(Table(kind)), original), name, NewGroup(id, video, audio, data))
      ensures outcome.Updated? && name == original ==>
        Table(kind) == Put(old(Table(kind)), original, NewGroup(id, video, audio, data))
      ensures kind == Sources ==> receivers == old(receivers)
      ensures kind == Receivers ==> sources == old(sources)
    {
      var t := Table(kind);
      var taken := IdUsedByOther(t, original, id);
      if taken {
        return IdTaken(id);
      }
      if Lookup(t, original).None? {
        return MissingOriginal;
      }
      var g := NewGroup(id, video, audio, data);
      var t' := if name != original then Put(Remove(t, original), name, g) else Put(t, original, g);
      if old(Valid()) {
        if name != original {
          RemoveKeepsIdsUnique(t, original);
          var u := Remove(t, original);
          forall k | 0 <= k < |u| && u[k].name != name
            ensures u[k].group.id != g.id
          {
            assert u[k] in t;
          }
          PutKeepsIdsUnique(u, name, g);
        } else {
          PutKeepsIdsUnique(t, original, g);
        }
      }
      SetTable(kind, t');
      outcome := Updated;
    }

    /** `delete_logical_id`: removes exactly the named record when present. */
    method DeleteLogicalId(kind: Kind, name: string)
      requires NamesUnique(sources) && NamesUnique(receivers)
      modifies this
      ensures NamesUnique(sources) && NamesUnique(receivers)
      ensures old(Valid()) ==> Valid()
      ensures Table(kind) == Remove(old(Table(kind)), name)
      ensures kind == Sources ==> receivers == old(receivers)
      ensures kind == Receivers ==> sources == old(sources)
    {
      var t := Table(kind);
      if old(Valid()) {
        RemoveKeepsIdsUnique(t, name);
      }
      SetTable(kind, Remove(t, name));
    }
  }

  /** A JSON scalar as the settings file holds it. */
  datatype Value = Bool(b: bool) | Int(i: int) | Text(s: string) | Null

  /** Python truthiness of a JSON scalar. */
  predicate Truthy(v: Value) {
    match v
    case Bool(b) => b
    case Int(i) => i != 0
    case Text(s) => s != ""
    case Null => false
  }

  /** The defaults `load_settings` starts from. */
  const DefaultSettings: map<string, Value> := map[
    "refresh_interval" := Int(300),
    "patch_secondary" := Bool(true),
    "enable_restapi" := Bool(true),
    "enable_bmd_emulator" := Bool(false)
  ]

  /** `load_settings`: the file's keys override the defaults, missing keys keep their
      default, and an unreadable file (None) yields the defaults alone. */
  function LoadSettings(file: Option<map<string, Value>>): (r: map<string, Value>)
    ensures file.None? ==> r == DefaultSettings
    ensures file.Some? ==> r.Keys == DefaultSettings.Keys + file.value.Keys
    ensures file.Some? ==> forall k :: k in file.value ==> r[k] == file.value[k]
    ensures file.Some? ==> forall k :: k in DefaultSettings && k !in file.value ==> r[k] == DefaultSettings[k]
  {
    match file
    case Some(f) => DefaultSettings + f
    case None => DefaultSettings
  }
}
