/** The HTTP control API (protocols/restapi.py): the settings gate in front of
    every endpoint, logical takes of one or many destinations, logical
    disconnects, and the status query that names the source a logical
    receiver is showing. Device calls and the receivers' active-sender reports
    are oracles. */
module RestApi {
  import opened Wrappers
  import opened Text
  import opened Logical
  import opened Settings
  import opened PatchBus

  /** `settings.json` as the gate reads it: a JSON object, or the text of the error
      raised while opening or reading it (a non-object document fails on `.get`). */
  datatype SettingsFile = Unreadable(error: string) | Loaded(json: map<string, Value>)

  /** An endpoint's answer: an error status code with its message, or a 200 body. */
  datatype Response<T> = Failure(code: int, message: string) | Ok(body: T)

  /** `settings.get("enable_restapi", False)`, read raw: a missing key is false. */
  predicate ApiEnabled(json: map<string, Value>) {
    "enable_restapi" in json && Truthy(json["enable_restapi"])
  }

  /** `rest_api_enabled_only`: 500 when the settings cannot be read, 403 when the API
      is switched off, and otherwise the endpoint's own answer. */
  function Guard<T>(file: SettingsFile, served: Response<T>): Response<T> {
    match file
    case Unreadable(error) => Failure(500, "Could not load settings: " + error)
    case Loaded(json) =>
      if !ApiEnabled(json) then Failure(403, "REST API is disabled in settings") else served
  }

  /** The endpoint runs exactly when the settings are readable and enable the API; a
      missing `enable_restapi` key blocks it. */
  lemma {:induction false} GuardCases<T>(file: SettingsFile, served: Response<T>)
    ensures file.Loaded? && ApiEnabled(file.json) ==> Guard(file, served) == served
    ensures Guard(file, served).Ok? <==> file.Loaded? && ApiEnabled(file.json) && served.Ok?
    ensures file.Unreadable? ==> Guard(file, served).Failure? && Guard(file, served).code == 500
    ensures file.Loaded? && !ApiEnabled(file.json) ==> Guard(file, served) == Failure(403, "REST API is disabled in settings")
    ensures file.Loaded? && "enable_restapi" !in file.json ==> Guard(file, served).Failure? && Guard(file, served).code == 403
  {
  }

  /** A dict is falsy when empty: a record with no ID and no essence. */
  predicate IsEmptyRecord(g: Group) {
    g == Group(None, None, None, None)
  }

  /** The per-essence loop of `take_logical` and `take_many`: one entry per essence,
      filled in video, audio, data order. */
  method TakeEssences(src: Group, dst: Group, device: Device) returns (result: map<Essence, EssenceResult>)
    ensures result == PatchAll(src, dst, device)
  {
    result := map[];
    var i := 0;
    while i < |Essences|
      invariant 0 <= i <= |Essences|
      invariant result.Keys == set e | e in Essences[..i]
      invariant forall e :: e in result ==> result[e] == EssenceOutcome(src, dst, e, device)
    {
      var e := Essences[i];
      var sender := src.Get(e);
      var receiver := dst.Get(e);
      if Present(sender) && Present(receiver) {
        result := result[e := PatchOne(sender.value, receiver.value, device(receiver.value, sender.value))];
      } else {
        result := result[e := Skipped(MissingReason)];
      }
      assert Essences[..i + 1] == Essences[..i] + [e];
      i := i + 1;
    }
    forall e
      ensures e in result
    {
      EssencesComplete(e);
      assert Essences[..3] == Essences;
    }
  }

  /** A status that counts as done. */
  predicate Succeeded(status: Option<string>) {
    status == Some("success") || status == Some("patched")
  }

  /** `essence_status_bit` of the entry stored for `e`, an absent entry reading as `{}`. */
  function StatusBit(result: map<Essence, EssenceResult>, e: Essence): char {
    if e in result && Succeeded(result[e].Status()) then '1' else '0'
  }

  /** `patch_code`: one bit per essence, video, audio, data. */
  function PatchCode(result: map<Essence, EssenceResult>): (code: string)
    ensures |code| == |Essences|
    ensures forall i :: 0 <= i < |code| ==> code[i] in "01"
    ensures forall i :: 0 <= i < |code| ==>
      (code[i] == '1' <==> Essences[i] in result && Succeeded(result[Essences[i]].Status()))
  {
    [StatusBit(result, Video), StatusBit(result, Audio), StatusBit(result, Data)]
  }

  /** For a take, an essence's bit is set exactly when both groups define it and the
      device answered `success` or `patched`; skipped and raised essences read 0. */
  lemma {:induction false} PatchCodeOfTake(src: Group, dst: Group, device: Device, i: nat)
    requires i < |Essences|
    ensures var e := Essences[i];
      PatchCode(PatchAll(src, dst, device))[i] == '1' <==>
        Attempted(src, dst, e) &&
        var reply := device(dst.Get(e).value, src.Get(e).value);
        reply.Reply? && Succeeded(reply.status)
  {
    var e := Essences[i];
    PatchAllShape(src, dst, device, e);
  }

  /** The body of a successful `/api/take`. */
  datatype TakeBody = TakeBody(sourceName: Option<string>, destinationName: Option<string>,
                               patchCode: string, patched: map<Essence, EssenceResult>)

  /** The name stored at a found position. */
  function NameAt(t: Table, k: Option<nat>): Option<string> {
    if k.Some? && k.value < |t| then Some(t[k.value].name) else None
  }

  /** `take_logical` with the `src` and `dest` query arguments: 400 when either is missing
      or empty, 404 when either logical group is unknown (matched on the text of its ID),
      and otherwise the per-essence results and patch code, named after the groups. */
  method TakeLogical(reg: Logicals, srcArg: Option<string>, destArg: Option<string>, device: Device)
    returns (r: Response<TakeBody>)
    ensures !Present(srcArg) || !Present(destArg) ==> r == Failure(400, "Missing src or dest")
    ensures Present(srcArg) && Present(destArg) ==>
      var pair := GetLogicalPair(reg, TextArg(srcArg.value), TextArg(destArg.value));
      if pair.0.None? || pair.1.None? || IsEmptyRecord(pair.0.value) || IsEmptyRecord(pair.1.value) then
        r == Failure(404, "Invalid src or dest ID")
      else
        var ks := FindByText(reg.sources, TextArg(srcArg.value));
        var kd := FindByText(reg.receivers, TextArg(destArg.value));
        && r.Ok?
        && ks.Some? && pair.0 == Some(reg.sources[ks.value].group) && r.body.sourceName == Some(reg.sources[ks.value].name)
        && kd.Some? && pair.1 == Some(reg.receivers[kd.value].group) && r.body.destinationName == Some(reg.receivers[kd.value].name)
        && r.body.patched == PatchAll(pair.0.value, pair.1.value, device)
        && r.body.patchCode == PatchCode(r.body.patched)
  {
    if !Present(srcArg) || !Present(destArg) {
      return Failure(400, "Missing src or dest");
    }
    var pair := GetLogicalPair(reg, TextArg(srcArg.value), TextArg(destArg.value));
    if pair.0.None? || pair.1.None? || IsEmptyRecord(pair.0.value) || IsEmptyRecord(pair.1.value) {
      return Failure(404, "Invalid src or dest ID");
    }
    var srcName := NameAt(reg.sources, FindByText(reg.sources, TextArg(srcArg.value)));
    var destName := NameAt(reg.receivers, FindByText(reg.receivers, TextArg(destArg.value)));
    var result := TakeEssences(pair.0.value, pair.1.value, device);
    r := Ok(TakeBody(srcName, destName, PatchCode(result), result));
  }

  /** `[int(d.strip()) for d in dests.split(",")]`, or None when some piece is not an
      integer (`int` strips surrounding whitespace itself, so the extra strip changes nothing). */
  function ParseIds(pieces: seq<string>): (r: Option<seq<int>>)
    ensures r.Some? <==> forall k :: 0 <= k < |pieces| ==> ParseInt(pieces[k]).Some?
    ensures r.Some? ==> |r.value| == |pieces|
    ensures r.Some? ==> forall k :: 0 <= k < |pieces| ==> ParseInt(pieces[k]) == Some(r.value[k])
  {
    if pieces == [] then Some([])
    else
      match (ParseInt(pieces[0]), ParseIds(pieces[1..]))
      case (Some(n), Some(rest)) => Some([n] + rest)
      case _ => None
  }

  /** The group `take_many` and `disconnect_logical` find under an integer ID: the name of
      the first record with that ID, when that name is non-empty, and the record then
      stored under the name, when it is a non-empty dict. */
  function Resolve(t: Table, id: int): Option<(string, Group)> {
    var name := NameAt(t, FindById(t, id));
    if name.None? || name.value == "" then None
    else match Lookup(t, name.value)
      case Some(g) => if IsEmptyRecord(g) then None else Some((name.value, g))
      case None => None
  }

  /** A group is resolved exactly when some record carries the ID and the first such
      record has a non-empty name; in a table with distinct names it is that record. */
  lemma {:induction false} ResolveFindsFirst(t: Table, id: int)
    requires NamesUnique(t)
    ensures Resolve(t, id).Some? <==> FindById(t, id).Some? && t[FindById(t, id).value].name != ""
    ensures Resolve(t, id).Some? ==>
      var k := FindById(t, id).value;
      Resolve(t, id) == Some((t[k].name, t[k].group))
  {
    var k := FindById(t, id);
    if k.Some? {
      LookupAt(t, k.value);
    }
  }

  /** One entry of `take_many`'s `results`. */
  datatype DestResult =
    | DestError(destId: int)
    | DestOk(destId: int, receiverName: string, patchCode: string, patched: map<Essence, EssenceResult>)

  /** What `take_many` reports for one requested destination. */
  function DestOutcome(reg: Logicals, src: Group, destId: int, device: Device): (d: DestResult)
    ensures d.destId == destId
    ensures d.DestError? <==> Resolve(reg.receivers, destId).None?
    ensures d.DestOk? ==>
      var (name, dst) := Resolve(reg.receivers, destId).value;
      d.receiverName == name && d.patched == PatchAll(src, dst, device) && d.patchCode == PatchCode(d.patched)
  {
    match Resolve(reg.receivers, destId)
    case None => DestError(destId)
    case Some((name, dst)) =>
      var patched := PatchAll(src, dst, device);
      DestOk(destId, name, PatchCode(patched), patched)
  }

  /** The body of a successful `/api/take_many`. */
  datatype TakeManyBody = TakeManyBody(sourceName: string, results: seq<DestResult>)

  /** `take_many`: 400 when an argument is missing, when `src` or any comma-separated
      `dest` is not an integer; 404 when the source is unknown; and otherwise one result
      per requested destination, in request order, an unknown destination giving an
      error entry without stopping the others. */
  method TakeMany(reg: Logicals, srcArg: Option<string>, destArg: Option<string>, device: Device)
    returns (r: Response<TakeManyBody>)
    ensures !Present(srcArg) || !Present(destArg) ==> r == Failure(400, "Missing src or dest")
    ensures Present(srcArg) && Present(destArg) ==>
      var srcId := ParseInt(srcArg.value);
      var destIds := ParseIds(SplitOn(destArg.value, ','));
      if srcId.None? || destIds.None? then r == Failure(400, "Invalid ID format")
      else if Resolve(reg.sources, srcId.value).None? then r == Failure(404, "Invalid source ID")
      else
        var (name, src) := Resolve(reg.sources, srcId.value).value;
        && r.Ok? && r.body.sourceName == name
        && |r.body.results| == |destIds.value|
        && forall k :: 0 <= k < |destIds.value| ==> r.body.results[k] == DestOutcome(reg, src, destIds.value[k], device)
  {
    if !Present(srcArg) || !Present(destArg) {
      return Failure(400, "Missing src or dest");
    }
    var srcId := ParseInt(srcArg.value);
    var destIds := ParseIds(SplitOn(destArg.value, ','));
    if srcId.None? || destIds.None? {
      return Failure(400, "Invalid ID format");
    }
    var source := Resolve(reg.sources, srcId.value);
    if source.None? {
      return Failure(404, "Invalid source ID");
    }
    var (srcName, src) := source.value;
    var responses := TakeEach(reg, src, destIds.value, device);
    r := Ok(TakeManyBody(srcName, responses));
  }

  /** The destination loop of `take_many`: one result appended per requested ID. */
  method TakeEach(reg: Logicals, src: Group, ids: seq<int>, device: Device) returns (responses: seq<DestResult>)
    ensures |responses| == |ids|
    ensures forall k :: 0 <= k < |ids| ==> responses[k] == DestOutcome(reg, src, ids[k], device)
  {
    responses := [];
    var i := 0;
    while i < |ids|
      invariant 0 <= i <= |ids|
      invariant |responses| == i
      invariant forall k :: 0 <= k < i ==> responses[k] == DestOutcome(reg, src, ids[k], device)
    {
      var response := TakeOne(reg, src, ids[i], device);
      responses := responses + [response];
      i := i + 1;
    }
  }

  /** The body of `take_many`'s loop for one destination. */
  method TakeOne(reg: Logicals, src: Group, destId: int, device: Device) returns (d: DestResult)
    ensures d == DestOutcome(reg, src, destId, device)
  {
    var dest := Resolve(reg.receivers, destId);
    if dest.None? {
      return DestError(destId);
    }
    var (destName, dst) := dest.value;
    var patched := TakeEssences(src, dst, device);
    d := DestOk(destId, destName, PatchCode(patched), patched);
  }

  /** `disconnect_receiver` for a receiver ID, as an oracle. */
  type Releaser = string -> Reply

  const NoReceiverReason := "No receiver ID defined"

  /** The entry `disconnect_logical` records for one essence of the destination group. */
  function ReleaseOutcome(dst: Group, e: Essence, release: Releaser): EssenceResult {
    var receiver := dst.Get(e);
    if Present(receiver) then
      match release(receiver.value)
      case Reply(status, message) => Released(status, receiver.value, message.GetOr(""))
      case Raised(error) => Released(Some("error"), receiver.value, error)
    else Skipped(NoReceiverReason)
  }

  /** The `disconnected` record: one entry per essence. */
  function ReleaseAll(dst: Group, release: Releaser): map<Essence, EssenceResult> {
    map e | e in Essences :: ReleaseOutcome(dst, e, release)
  }

  /** Every essence has an entry; it is skipped exactly when the group gives it no receiver
      ID, and otherwise names that receiver and carries the device's status, or `error`. */
  lemma {:induction false} ReleaseAllShape(dst: Group, release: Releaser, e: Essence)
    ensures e in ReleaseAll(dst, release)
    ensures ReleaseAll(dst, release)[e].Skipped? <==> !Present(dst.Get(e))
    ensures ReleaseAll(dst, release)[e].Skipped? ==> ReleaseAll(dst, release)[e].reason == NoReceiverReason
    ensures Present(dst.Get(e)) ==>
      var r := ReleaseAll(dst, release)[e];
      var reply := release(dst.Get(e).value);
      && r.Released? && r.receiver == dst.Get(e).value
      && (reply.Raised? ==> r.status == Some("error") && r.message == reply.error)
      && (reply.Reply? ==> r.status == reply.status && r.message == reply.message.GetOr(""))
  {
    EssencesComplete(e);
  }

  /** Essences are released independently: an entry depends only on the device's answer
      for that essence's own receiver. */
  lemma {:induction false} ReleaseAllIndependent(dst: Group, r1: Releaser, r2: Releaser, e: Essence)
    requires Present(dst.Get(e)) ==> r1(dst.Get(e).value) == r2(dst.Get(e).value)
    ensures ReleaseAll(dst, r1)[e] == ReleaseAll(dst, r2)[e]
  {
    EssencesComplete(e);
  }

  /** The per-essence loop of `disconnect_logical`. */
  method ReleaseEssences(dst: Group, release: Releaser) returns (result: map<Essence, EssenceResult>)
    ensures result == ReleaseAll(dst, release)
  {
    result := map[];
    var i := 0;
    while i < |Essences|
      invariant 0 <= i <= |Essences|
      invariant result.Keys == set e | e in Essences[..i]
      invariant forall e :: e in result ==> result[e] == ReleaseOutcome(dst, e, release)
    {
      var e := Essences[i];
      var receiver := dst.Get(e);
      if Present(receiver) {
        var reply := release(receiver.value);
        match reply
        case Reply(status, message) =>
          result := result[e := Released(status, receiver.value, message.GetOr(""))];
        case Raised(error) =>
          result := result[e := Released(Some("error"), receiver.value, error)];
      } else {
        result := result[e := Skipped(NoReceiverReason)];
      }
      assert Essences[..i + 1] == Essences[..i] + [e];
      i := i + 1;
    }
    forall e
      ensures e in result
    {
      EssencesComplete(e);
      assert Essences[..3] == Essences;
    }
  }

  /** The body of a successful `/api/disconnect`. */
  datatype DisconnectBody = DisconnectBody(receiverName: string, disconnected: map<Essence, EssenceResult>)

  /** `disconnect_logical`: 400 when `dest` is missing or not an integer, 404 when no
      receiver group with a non-empty name has that ID, and otherwise one entry per essence. */
  method DisconnectLogical(reg: Logicals, destArg: Option<string>, release: Releaser)
    returns (r: Response<DisconnectBody>)
    ensures !Present(destArg) ==> r == Failure(400, "Missing dest")
    ensures Present(destArg) && ParseInt(destArg.value).None? ==> r == Failure(400, "Invalid dest ID")
    ensures Present(destArg) && ParseInt(destArg.value).Some? ==>
      var name := NameAt(reg.receivers, FindById(reg.receivers, ParseInt(destArg.value).value));
      if name.None? || name.value == "" then r == Failure(404, "Receiver group not found")
      else
        var dst := Lookup(reg.receivers, name.value);
        dst.Some? && r == Ok(DisconnectBody(name.value, ReleaseAll(dst.value, release)))
  {
    if !Present(destArg) {
      return Failure(400, "Missing dest");
    }
    var destId := ParseInt(destArg.value);
    if destId.None? {
      return Failure(400, "Invalid dest ID");
    }
    var name := NameAt(reg.receivers, FindById(reg.receivers, destId.value));
    if name.None? || name.value == "" {
      return Failure(404, "Receiver group not found");
    }
    var dst := Lookup(reg.receivers, name.value);
    if dst.None? {
      // the name was read from the table, so `table[name]` cannot miss
      assert false;
      return Failure(404, "Receiver group not found");
    }
    var result := ReleaseEssences(dst.value, release);
    r := Ok(DisconnectBody(name.value, result));
  }

  /** The sender a receiver reports as active, per receiver UUID: None when the receiver
      is not in the cache, the request fails, or it reports no sender. */
  type ActiveReport = string -> Option<string>

  /** `active_sender_ids`: for every essence the logical receiver defines, the non-empty
      sender ID its receiver reports. */
  function ActiveSenders(dst: Group, report: ActiveReport): (active: map<Essence, string>)
    ensures forall e :: e in active <==> Present(dst.Get(e)) && Present(report(dst.Get(e).value))
    ensures forall e :: e in active ==>
      Present(dst.Get(e)) && Present(report(dst.Get(e).value)) &&
      active[e] == report(dst.Get(e).value).value && active[e] != ""
  {
    forall e
      ensures Present(dst.Get(e)) ==> e in Essences
    {
      EssencesComplete(e);
    }
    map e | e in Essences && Present(dst.Get(e)) && Present(report(dst.Get(e).value)) :: report(dst.Get(e).value).value
  }

  /** The `all(...)` rule: every essence the source defines equals the active sender
      for that essence. */
  predicate Matches(g: Group, active: map<Essence, string>) {
    forall e :: Present(g.Get(e)) ==> e in active && active[e] == g.Get(e).value
  }

  /** A source that defines no essence matches whatever is active, and a source that
      defines an essence the receiver does not report never matches. */
  lemma {:induction false} MatchesVacuous(g: Group, active: map<Essence, string>, e: Essence)
    ensures (forall x :: !Present(g.Get(x))) ==> Matches(g, active)
    ensures Present(g.Get(e)) && e !in active ==> !Matches(g, active)
  {
  }

  /** Position `k` holds the first source that matches. */
  predicate FirstMatch(sources: Table, active: map<Essence, string>, k: int) {
    0 <= k < |sources| && Matches(sources[k].group, active) &&
    forall j :: 0 <= j < k ==> !Matches(sources[j].group, active)
  }

  /** The matching loop of `status_logical`: the name of the first source that matches,
      or None when none does. */
  method MatchSource(sources: Table, active: map<Essence, string>) returns (name: Option<string>)
    ensures name.None? <==> forall k :: 0 <= k < |sources| ==> !Matches(sources[k].group, active)
    ensures name.Some? ==> exists k :: FirstMatch(sources, active, k) && name.value == sources[k].name
  {
    name := None;
    var i := 0;
    while i < |sources|
      invariant 0 <= i <= |sources|
      invariant forall j :: 0 <= j < i ==> !Matches(sources[j].group, active)
    {
      if Matches(sources[i].group, active) {
        name := Some(sources[i].name);
        return;
      }
      i := i + 1;
    }
  }

  /** The body of a successful `/api/status`. */
  datatype StatusBody = StatusBody(receiverName: string, sourceName: Option<string>)

  /** `status_logical`: 400 when `dest` is missing or not an integer, 404 when the first
      receiver group with that ID is absent, unnamed or empty, and otherwise the first
      source that matches the senders its receivers report. */
  method StatusLogical(reg: Logicals, destArg: Option<string>, report: ActiveReport)
    returns (r: Response<StatusBody>)
    ensures !Present(destArg) ==> r == Failure(400, "Missing dest")
    ensures Present(destArg) && ParseInt(destArg.value).None? ==> r == Failure(400, "Invalid dest ID")
    ensures Present(destArg) && ParseInt(destArg.value).Some? ==>
      var k := FindById(reg.receivers, ParseInt(destArg.value).value);
      if k.None? || reg.receivers[k.value].name == "" || IsEmptyRecord(reg.receivers[k.value].group) then
        r == Failure(404, "Logical receiver not found")
      else
        var active := ActiveSenders(reg.receivers[k.value].group, report);
        && r.Ok? && r.body.receiverName == reg.receivers[k.value].name
        && (r.body.sourceName.None? <==> forall j :: 0 <= j < |reg.sources| ==> !Matches(reg.sources[j].group, active))
        && (r.body.sourceName.Some? ==>
              exists j :: FirstMatch(reg.sources, active, j) && r.body.sourceName.value == reg.sources[j].name)
  {
    if !Present(destArg) {
      return Failure(400, "Missing dest");
    }
    var destId := ParseInt(destArg.value);
    if destId.None? {
      return Failure(400, "Invalid dest ID");
    }
    var k := FindById(reg.receivers, destId.value);
    if k.None? || reg.receivers[k.value].name == "" || IsEmptyRecord(reg.receivers[k.value].group) {
      return Failure(404, "Logical receiver not found");
    }
    var receiver := reg.receivers[k.value];
    var active := ActiveSenders(receiver.group, report);
    var matched := MatchSource(reg.sources, active);
    r := Ok(StatusBody(receiver.name, matched));
  }
}
