/** `ExtractGvrkNsFromCrd` of internal/util/kube.go over an unstructured object. */
module CrdExtract {

  datatype Json =
    | Null
    | Bool(b: bool)
    | Number(n: int)
    | Str(s: string)
    | List(items: seq<Json>)
    | Object(fields: map<string, Json>)
  {
    /** Go's two-value assertion to string, with the zero value where it fails. */
    function AsString(): string { if Str? then s else "" }
  }

  function Get(m: map<string, Json>, key: string): Json { if key in m then m[key] else Null }

  datatype Gvr = Gvr(group: string, version: string, resource: string)

  /** The version name of one entry of spec.versions, "" where the loop skips it. */
  function VersionName(v: Json): string {
    if v.Object? then Get(v.fields, "name").AsString() else ""
  }

  /** What the CRD lists: one GVR for each named version, in order. */
  function Named(items: seq<Json>): seq<string> {
    if items == [] then [] else
    var name := VersionName(items[|items| - 1]);
    Named(items[..|items| - 1]) + if name == "" then [] else [name]
  }

  /** The parts of the CRD the function reads, when they have the types it expects. */
  predicate WellShaped(crd: map<string, Json>) {
    var spec := Get(crd, "spec");
    spec.Object? && Get(spec.fields, "names").Object? && Get(spec.fields, "versions").List?
  }

  function Spec(crd: map<string, Json>): map<string, Json>
    requires WellShaped(crd)
  {
    Get(crd, "spec").fields
  }

  function Listed(crd: map<string, Json>): (gvrs: seq<Gvr>)
    ensures forall i :: 0 <= i < |gvrs| ==> gvrs[i].version != ""
    ensures forall i, j :: 0 <= i < |gvrs| && 0 <= j < |gvrs| ==>
      gvrs[i].group == gvrs[j].group && gvrs[i].resource == gvrs[j].resource
  {
    if !WellShaped(crd) then [] else
    var spec := Spec(crd);
    var names := Named(Get(spec, "versions").items);
    NamedNonEmpty(Get(spec, "versions").items);
    seq(|names|, i requires 0 <= i < |names| =>
      Gvr(Get(spec, "group").AsString(), names[i], Get(Get(spec, "names").fields, "plural").AsString()))
  }

  lemma {:induction false} NamedNonEmpty(items: seq<Json>)
    ensures forall i :: 0 <= i < |Named(items)| ==> Named(items)[i] != ""
  {
    if items != [] { NamedNonEmpty(items[..|items| - 1]); }
  }

  method Extract(crd: map<string, Json>) returns (gvrs: seq<Gvr>, kind: string, namespaced: bool)
    ensures gvrs == Listed(crd)
    ensures kind == if WellShaped(crd) then Get(Get(Spec(crd), "names").fields, "kind").AsString() else ""
    ensures namespaced <==> Get(crd, "spec").Object? && Get(Get(crd, "spec").fields, "scope") == Str("Namespaced")
  {
    gvrs, kind := [], "";
    var spec := Get(crd, "spec");
    if !spec.Object? { return gvrs, kind, false; }
    namespaced := Get(spec.fields, "scope").AsString() == "Namespaced";
    var group := Get(spec.fields, "group").AsString();
    var names := Get(spec.fields, "names");
    if !names.Object? { return; }
    var plural := Get(names.fields, "plural").AsString();
    var versions := Get(spec.fields, "versions");
    if !versions.List? { return; }
    kind := Get(names.fields, "kind").AsString();
    gvrs := ExtractVersions(versions.items, group, plural);
  }

  /** The loop over the versions. */
  method ExtractVersions(items: seq<Json>, group: string, plural: string) returns (gvrs: seq<Gvr>)
    ensures |gvrs| == |Named(items)|
    ensures forall i :: 0 <= i < |gvrs| ==> gvrs[i] == Gvr(group, Named(items)[i], plural)
  {
    gvrs := [];
    for k := 0 to |items|
      invariant |gvrs| == |Named(items[..k])|
      invariant forall i :: 0 <= i < |gvrs| ==> gvrs[i] == Gvr(group, Named(items[..k])[i], plural)
    {
      assert items[..k + 1][..k] == items[..k];
      var v := items[k];
      if !v.Object? { continue; }
      var version := Get(v.fields, "name").AsString();
      if version == "" { continue; }
      gvrs := gvrs + [Gvr(group, version, plural)];
    }
    assert items[..|items|] == items;
  }

  // Main results: which versions are listed, in terms of the JSON alone.

  /** The entry of spec.versions has this name. */
  ghost predicate NamesVersion(item: Json, n: string) {
    n != "" && item.Object? && "name" in item.fields && item.fields["name"] == Str(n)
  }

  /** The names are those of the entries at these places, in order, and no named entry is left out. */
  ghost predicate Picks(items: seq<Json>, names: seq<string>, at: seq<nat>) {
    && |at| == |names|
    && (forall a, b :: 0 <= a < b < |at| ==> at[a] < at[b])
    && (forall a :: 0 <= a < |at| ==> at[a] < |items| && NamesVersion(items[at[a]], names[a]))
    && (forall i: nat, n :: i < |items| && NamesVersion(items[i], n) ==> i in at)
  }

  lemma VersionNameMeans(v: Json, n: string)
    ensures NamesVersion(v, n) <==> n != "" && VersionName(v) == n
  {
  }

  lemma PicksMore(items: seq<Json>, names: seq<string>, at: seq<nat>, v: Json)
    requires Picks(items, names, at)
    ensures VersionName(v) == "" ==> Picks(items + [v], names, at)
    ensures VersionName(v) != "" ==> Picks(items + [v], names + [VersionName(v)], at + [|items|])
  {
    var more := items + [v];
    VersionNameMeans(v, VersionName(v));
    var got := if VersionName(v) == "" then at else at + [|items|];
    forall i: nat, n | i < |more| && NamesVersion(more[i], n) ensures i in got {
      if i < |items| {
        assert NamesVersion(items[i], n);
        assert i in at;
      } else {
        VersionNameMeans(v, n);
        assert got[|at|] == i;
      }
    }
  }

  /** Every named entry of spec.versions gives one version, in order, and nothing else does. */
  lemma {:induction false} NamedPicks(items: seq<Json>) returns (at: seq<nat>)
    ensures Picks(items, Named(items), at)
  {
    if items == [] {
      at := [];
    } else {
      var n := |items| - 1;
      at := NamedPicks(items[..n]);
      PicksMore(items[..n], Named(items[..n]), at, items[n]);
      assert items == items[..n] + [items[n]];
      if VersionName(items[n]) != "" {
        at := at + [n];
      } else {
        assert Named(items) == Named(items[..n]);
      }
    }
  }

  /** The CRD has a spec with an object of names and a list of versions. */
  ghost predicate Shape(crd: map<string, Json>, spec: map<string, Json>, names: map<string, Json>, items: seq<Json>) {
    && "spec" in crd && crd["spec"] == Object(spec)
    && "names" in spec && spec["names"] == Object(names)
    && "versions" in spec && spec["versions"] == List(items)
  }

  ghost predicate TextAt(m: map<string, Json>, key: string, s: string) {
    if key in m && m[key].Str? then m[key].s == s else s == ""
  }

  /** What a CRD of this shape lists: spec.group, spec.names.plural and the name of each named entry
      of spec.versions, in order. */
  lemma ListedMeans(crd: map<string, Json>, spec: map<string, Json>, names: map<string, Json>, items: seq<Json>)
    returns (at: seq<nat>)
    requires Shape(crd, spec, names, items)
    ensures |at| == |Listed(crd)|
    ensures Picks(items, seq(|at|, i requires 0 <= i < |Listed(crd)| => Listed(crd)[i].version), at)
    ensures forall i :: 0 <= i < |Listed(crd)| ==>
      TextAt(spec, "group", Listed(crd)[i].group) && TextAt(names, "plural", Listed(crd)[i].resource)
  {
    at := NamedPicks(items);
    assert seq(|at|, i requires 0 <= i < |Listed(crd)| => Listed(crd)[i].version) == Named(items);
    TextAtGet(spec, "group");
    TextAtGet(names, "plural");
    forall i | 0 <= i < |Listed(crd)|
      ensures TextAt(spec, "group", Listed(crd)[i].group) && TextAt(names, "plural", Listed(crd)[i].resource)
    {
      assert Listed(crd)[i].group == Get(spec, "group").AsString();
      assert Listed(crd)[i].resource == Get(names, "plural").AsString();
    }
  }

  lemma TextAtGet(m: map<string, Json>, key: string)
    ensures TextAt(m, key, Get(m, key).AsString())
  {
  }

  /** A CRD of any other shape lists nothing. */
  lemma ListsNothingWithoutShape(crd: map<string, Json>)
    requires Listed(crd) != []
    ensures exists spec, names, items :: Shape(crd, spec, names, items)
  {
    var spec := Get(crd, "spec").fields;
    assert Shape(crd, spec, Get(spec, "names").fields, Get(spec, "versions").items);
  }

  /** A version is listed if and only if some entry of spec.versions has its name. */
  lemma VersionListedExactly(crd: map<string, Json>, spec: map<string, Json>, names: map<string, Json>,
                             items: seq<Json>, n: string)
    requires Shape(crd, spec, names, items)
    ensures (exists i :: 0 <= i < |Listed(crd)| && Listed(crd)[i].version == n)
       <==> (exists k :: 0 <= k < |items| && NamesVersion(items[k], n))
  {
    var at := ListedMeans(crd, spec, names, items);
    var gvrs := Listed(crd);
    if i :| 0 <= i < |gvrs| && gvrs[i].version == n { assert NamesVersion(items[at[i]], n); }
    if k :| 0 <= k < |items| && NamesVersion(items[k], n) {
      var i :| 0 <= i < |at| && at[i] == k;
      assert NamesVersion(items[at[i]], gvrs[i].version);
    }
  }
}
