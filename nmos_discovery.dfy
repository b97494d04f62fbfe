/** Essence classification of discovered senders and receivers, and the
    node-API URLs the discovery pass fetches (services/nmos_discovery.py). */
module NmosDiscovery {
  import opened Wrappers
  import opened Text

  /** One entry of a resource's `tags` dict: a key and its list of values. */
  datatype Tag = Tag(key: string, values: seq<string>)

  /** A discovered resource: a JSON object whose missing text fields read as
      `""` and missing tags as `{}`, or some other JSON value. */
  datatype Resource = NotADict | Fields(format: string, labelText: string, description: string, tags: seq<Tag>)

  datatype ResourceType = Video | Audio | Ancillary | Unknown | Invalid {
    /** The string `get_resource_type` returns. */
    function Name(): string {
      match this
      case Video => "video"
      case Audio => "audio"
      case Ancillary => "ancillary"
      case Unknown => "unknown"
      case Invalid => "invalid"
    }
  }

  const VideoUrn := "urn:x-nmos:format:video"
  const AudioUrn := "urn:x-nmos:format:audio"
  const DataUrn := "urn:x-nmos:format:data"

  /** Some tag value holds `needle`, ignoring case. */
  predicate AnyTagContains(tags: seq<Tag>, needle: string) {
    exists i, j :: 0 <= i < |tags| && 0 <= j < |tags[i].values| && Contains(Lower(tags[i].values[j]), needle)
  }

  predicate LabelSaysVideo(lab: string) {
    Contains(lab, "video") || Contains(lab, "vid") || Contains(lab, "vision")
  }

  predicate LabelSaysAudio(lab: string) {
    Contains(lab, "audio") || Contains(lab, "aud")
  }

  /** `get_resource_type`: the format URN first (video, audio, then data), then the
      lower-cased label, then the lower-cased description, then the tags. */
  function GetResourceType(r: Resource): (t: ResourceType)
    ensures t == Invalid <==> r.NotADict?
  {
    match r
    case NotADict => Invalid
    case Fields(format, rawLabel, rawDescription, tags) =>
      var lab := Lower(rawLabel);
      var description := Lower(rawDescription);
      if Contains(format, VideoUrn) then Video
      else if Contains(format, AudioUrn) then Audio
      else if Contains(format, DataUrn) then Ancillary
      else if LabelSaysVideo(lab) then Video
      else if LabelSaysAudio(lab) then Audio
      else if Contains(lab, "anc") then Ancillary
      else if Contains(description, "video") then Video
      else if Contains(description, "audio") then Audio
      else if AnyTagContains(tags, "video") then Video
      else Unknown
  }

  /** Only a non-object classifies as invalid, and the name is always one of the five. */
  lemma {:induction false} ResourceTypeNames(r: Resource)
    ensures GetResourceType(r) == Invalid <==> r.NotADict?
    ensures GetResourceType(r).Name() in {"video", "audio", "ancillary", "unknown", "invalid"}
  {
  }

  /** A video format URN decides the class whatever the label, description and tags say;
      an audio URN does so unless a video URN is also present, and a data URN unless
      a video or audio URN is. */
  lemma {:induction false} FormatWins(format: string, lab: string, description: string, tags: seq<Tag>)
    ensures Contains(format, VideoUrn) ==> GetResourceType(Fields(format, lab, description, tags)) == Video
    ensures !Contains(format, VideoUrn) && Contains(format, AudioUrn) ==>
      GetResourceType(Fields(format, lab, description, tags)) == Audio
    ensures !Contains(format, VideoUrn) && !Contains(format, AudioUrn) && Contains(format, DataUrn) ==>
      GetResourceType(Fields(format, lab, description, tags)) == Ancillary
  {
  }

  /** Without a format URN the lower-cased label decides before the description and
      the tags: video words first, then audio words, then `anc`. */
  lemma {:induction false} LabelBeatsDescription(format: string, lab: string, description: string, tags: seq<Tag>)
    requires !Contains(format, VideoUrn) && !Contains(format, AudioUrn) && !Contains(format, DataUrn)
    ensures LabelSaysVideo(Lower(lab)) ==> GetResourceType(Fields(format, lab, description, tags)) == Video
    ensures !LabelSaysVideo(Lower(lab)) && LabelSaysAudio(Lower(lab)) ==>
      GetResourceType(Fields(format, lab, description, tags)) == Audio
    ensures !LabelSaysVideo(Lower(lab)) && !LabelSaysAudio(Lower(lab)) && Contains(Lower(lab), "anc") ==>
      GetResourceType(Fields(format, lab, description, tags)) == Ancillary
  {
  }

  /** "ancillary" comes only from a data format URN or an `anc` lab. */
  lemma {:induction false} AncillarySources(r: Resource)
    requires GetResourceType(r) == Ancillary
    ensures r.Fields? && (Contains(r.format, DataUrn) || Contains(Lower(r.labelText), "anc"))
  {
  }

  /** Past the format and the lab, the description can give only video or audio,
      and the tags only video. */
  lemma {:induction false} TextFallbacks(r: Resource)
    requires r.Fields?
    requires !Contains(r.format, VideoUrn) && !Contains(r.format, AudioUrn) && !Contains(r.format, DataUrn)
    requires !LabelSaysVideo(Lower(r.labelText)) && !LabelSaysAudio(Lower(r.labelText)) && !Contains(Lower(r.labelText), "anc")
    ensures GetResourceType(r) in {Video, Audio, Unknown}
    ensures Contains(Lower(r.description), "video") ==> GetResourceType(r) == Video
    ensures !Contains(Lower(r.description), "video") && Contains(Lower(r.description), "audio") ==> GetResourceType(r) == Audio
    ensures !Contains(Lower(r.description), "video") && !Contains(Lower(r.description), "audio") ==>
      (GetResourceType(r) == Video <==> AnyTagContains(r.tags, "video")) &&
      (GetResourceType(r) == Unknown <==> !AnyTagContains(r.tags, "video"))
  {
  }

  /** The `video` and `audio` lab tests are subsumed by `vid` and `aud`: the label rule
      amounts to `vid` or `vision`, then `aud`. */
  lemma {:induction false} LabelRulesReduce(lab: string)
    ensures LabelSaysVideo(lab) <==> Contains(lab, "vid") || Contains(lab, "vision")
    ensures LabelSaysAudio(lab) <==> Contains(lab, "aud")
  {
    assert Contains("video", "vid") by {
      assert StartsWith("video", "vid");
    }
    assert Contains("audio", "aud") by {
      assert StartsWith("audio", "aud");
    }
    if Contains(lab, "video") {
      ContainsTransitive(lab, "video", "vid");
    }
    if Contains(lab, "audio") {
      ContainsTransitive(lab, "audio", "aud");
    }
  }

  /** Lower-casing twice changes nothing more. */
  lemma {:induction false} LowerIdempotent(s: string)
    ensures Lower(Lower(s)) == Lower(s)
  {
    forall i | 0 <= i < |s|
      ensures Lower(Lower(s))[i] == Lower(s)[i]
    {
    }
  }

  /** Label and description are read case-insensitively. */
  lemma {:induction false} ClassificationIgnoresCase(format: string, lab: string, description: string, tags: seq<Tag>)
    ensures GetResourceType(Fields(format, Lower(lab), Lower(description), tags)) ==
            GetResourceType(Fields(format, lab, description, tags))
  {
    LowerIdempotent(lab);
    LowerIdempotent(description);
  }

  /** Text that holds `t` at its start or anywhere in a prefix keeps holding it. */
  lemma {:induction false} ContainsInPrefixOrAt(a: string, t: string, b: string)
    ensures Contains(a, t) ==> Contains(a + b, t)
    ensures Contains(a + t + b, t)
  {
    ContainsIffOccurs(a + b, t);
    ContainsIffOccurs(a + t + b, t);
    assert OccursAt(a + t + b, t, |a|) by {
      assert (a + t + b)[|a|..|a| + |t|] == t;
    }
    if Contains(a, t) {
      ContainsIffOccurs(a, t);
      var i :| OccursAt(a, t, i);
      assert (a + b)[i..i + |t|] == a[i..i + |t|];
      assert OccursAt(a + b, t, i);
    }
  }

  /** `build_url`: the node API path below `base`, inserting `/x-nmos` only when
      `base` does not already hold it. */
  function BuildUrl(base: string, version: string, resource: string): (u: string)
    ensures StartsWith(u, base)
    ensures EndsWith(u, "/" + resource + "/")
    ensures Contains(u, "/x-nmos")
    ensures Contains(u, "/node/" + version + "/")
    ensures Contains(base, "/x-nmos") ==> u == base + ("/node/" + version + "/" + resource + "/")
    ensures !Contains(base, "/x-nmos") ==> u == base + "/x-nmos" + ("/node/" + version + "/" + resource + "/")
  {
    var tail := "/node/" + version + "/" + resource + "/";
    var u := if Contains(base, "/x-nmos") then base + tail else base + "/x-nmos" + tail;
    assert u[..|base|] == base;
    assert u[|u| - |"/" + resource + "/"|..] == "/" + resource + "/";
    ContainsInPrefixOrAt(base, "/x-nmos", tail);
    NodeSegment(if Contains(base, "/x-nmos") then base else base + "/x-nmos", version, resource);
    u
  }

  /** The version segment sits between the prefix and the resource. */
  lemma {:induction false} NodeSegment(pre: string, version: string, resource: string)
    ensures Contains(pre + ("/node/" + version + "/" + resource + "/"), "/node/" + version + "/")
  {
    var seg := "/node/" + version + "/";
    assert pre + ("/node/" + version + "/" + resource + "/") == pre + seg + (resource + "/");
    ContainsInPrefixOrAt(pre, seg, resource + "/");
  }

  /** A base already ending in `/x-nmos` yields the URL of the base without it. */
  lemma {:induction false} BuildUrlSkipsPresentPrefix(base: string, version: string, resource: string)
    requires !Contains(base, "/x-nmos")
    ensures BuildUrl(base + "/x-nmos", version, resource) == BuildUrl(base, version, resource)
  {
    ContainsInPrefixOrAt(base, "/x-nmos", []);
    assert base + "/x-nmos" + [] == base + "/x-nmos";
  }

  /** The receivers or senders URL `fetch_node_data` requests for a node: the node URL
      without trailing slashes, the advertised node-API version (v1.3 by default). */
  function FetchUrl(nodeUrl: string, nmosVersion: Option<string>, resource: string): (u: string)
    ensures var base := RStripChar(nodeUrl, '/');
      && u == BuildUrl(base, nmosVersion.GetOr("v1.3"), resource)
      && StartsWith(u, base) && |base| < |u| && u[|base|] == '/'
      && (base != [] ==> u[|base| - 1] != '/')
      && StartsWith(nodeUrl, base)
      && forall i :: |base| <= i < |nodeUrl| ==> nodeUrl[i] == '/'
    ensures nmosVersion.None? ==> Contains(u, "/node/v1.3/")
    ensures nmosVersion.Some? ==> Contains(u, "/node/" + nmosVersion.value + "/")
  {
    var base := RStripChar(nodeUrl, '/');
    var u := BuildUrl(base, nmosVersion.GetOr("v1.3"), resource);
    assert u[..|base|] == base;
    assert "/node/" + "v1.3" + "/" == "/node/v1.3/";
    u
  }

  /** A trailing slash on the node URL does not change the requested URL. */
  lemma {:induction false} FetchUrlIgnoresTrailingSlash(nodeUrl: string, nmosVersion: Option<string>, resource: string)
    ensures FetchUrl(nodeUrl + "/", nmosVersion, resource) == FetchUrl(nodeUrl, nmosVersion, resource)
  {
    assert (nodeUrl + "/")[..|nodeUrl|] == nodeUrl;
    assert RStripChar(nodeUrl + "/", '/') == RStripChar(nodeUrl, '/');
  }
}
