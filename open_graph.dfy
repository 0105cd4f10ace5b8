/** The site-wide OpenGraph defaults and how page metadata overrides them. */
module OpenGraph {
  import opened Optional
  import opened Js

  const SiteName := "HCE Studio"

  const DefaultDescription := "HCE Studio - Craftsmanship at pace, where human ingenuity meets AI capability"

  /** The default share image; `serverUrl` is what `getServerSideURL()` returns. */
  function DefaultImages(serverUrl: string): Value {
    Arr([Obj(map["url" := Str(serverUrl + "/hce-web-social-default.png")])])
  }

  /** `defaultOpenGraph`. */
  function Defaults(serverUrl: string): Record {
    map[
      "type" := Str("website"),
      "description" := Str(DefaultDescription),
      "images" := DefaultImages(serverUrl),
      "siteName" := Str(SiteName),
      "title" := Str(SiteName)
    ]
  }

  /** Spreading an optional object: a missing one contributes nothing. */
  function Spread(og: Option<Record>): Record {
    if og.Some? then og.value else map[]
  }

  /**
   * `mergeOpenGraph`: the defaults, overridden key by key by `og`, except that
   * `images` is taken from `og` only when it is truthy there.
   */
  function MergeOpenGraph(serverUrl: string, og: Option<Record>): (r: Record)
    ensures forall k :: k in r <==> k in Defaults(serverUrl) || k in Spread(og)
    ensures forall k :: k in Spread(og) && k != "images" ==> r[k] == og.value[k]
    ensures forall k :: k in Defaults(serverUrl) && k !in Spread(og) ==> r[k] == Defaults(serverUrl)[k]
    ensures Truthy(GetIn(og, "images")) ==> r["images"] == og.value["images"]
    ensures !Truthy(GetIn(og, "images")) ==> r["images"] == DefaultImages(serverUrl)
  {
    var images := if Truthy(GetIn(og, "images")) then og.value["images"] else Defaults(serverUrl)["images"];
    Defaults(serverUrl) + Spread(og) + map["images" := images]
  }

  /** Without an argument the result is exactly the defaults. */
  lemma MergeNothing(serverUrl: string)
    ensures MergeOpenGraph(serverUrl, None) == Defaults(serverUrl)
  {
    var r := MergeOpenGraph(serverUrl, None);
    assert r.Keys == Defaults(serverUrl).Keys;
  }

  /** The merged result always carries truthy images, the site type and a site name key. */
  lemma MergeHasImages(serverUrl: string, og: Option<Record>)
    ensures Truthy(MergeOpenGraph(serverUrl, og)["images"])
    ensures "type" in MergeOpenGraph(serverUrl, og) && "siteName" in MergeOpenGraph(serverUrl, og)
    ensures "type" !in Spread(og) ==> MergeOpenGraph(serverUrl, og)["type"] == Str("website")
  {
  }

  /** Merging an already merged record again changes nothing. */
  lemma MergeIdempotent(serverUrl: string, og: Option<Record>)
    ensures MergeOpenGraph(serverUrl, Some(MergeOpenGraph(serverUrl, og))) == MergeOpenGraph(serverUrl, og)
  {
    var once := MergeOpenGraph(serverUrl, og);
    MergeHasImages(serverUrl, og);
    var twice := MergeOpenGraph(serverUrl, Some(once));
    assert twice.Keys == once.Keys;
    assert forall k :: k in twice ==> twice[k] == once[k];
  }
}
