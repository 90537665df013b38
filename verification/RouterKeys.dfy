/** Queue keys and informer keys of internal/router/helpers.go. */
module RouterKeys {
  import opened CrdExtract
  import opened Strings

  /** What splitKey does with a key: returns its parts, returns an error, or indexes past the end
      of the split GVRK part and panics. */
  datatype Parsed =
    | Parts(gvr: Gvr, kind: string, ns: string, name: string)
    | Invalid
    | Panics

  datatype MetaParsed = Meta(ns: string, name: string) | BadMeta

  /** cache.SplitMetaNamespaceKey. */
  function SplitMeta(key: string): MetaParsed {
    var parts := Split(key, '/');
    if |parts| == 1 then Meta("", parts[0]) else
    if |parts| == 2 then Meta(parts[0], parts[1]) else BadMeta
  }

  /** splitKey; a bad object part gives empty parts and no error. */
  function SplitKey(full: string): Parsed {
    var cut := Cut(full, '|');
    if cut.None? then Invalid else
    var meta := SplitMeta(cut.value.1);
    if meta.BadMeta? then Parts(Gvr("", "", ""), "", "", "") else
    var p := Split(cut.value.0, '/');
    if |p| < 4 then Panics else Parts(Gvr(p[0], p[1], p[2]), p[3], meta.ns, meta.name)
  }

  /** cache.MetaNamespaceKeyFunc. */
  function MetaKey(ns: string, name: string): string {
    if ns != "" then ns + "/" + name else name
  }

  function Prefix(gvr: Gvr, kind: string): string {
    gvr.group + "/" + gvr.version + "/" + gvr.resource + "/" + kind
  }

  function BuildKey(gvr: Gvr, kind: string, ns: string, name: string): string {
    Prefix(gvr, kind) + "|" + MetaKey(ns, name)
  }

  function InformerKey(gvr: Gvr, kind: string, ns: string): string {
    if |ns| > 0 then Prefix(gvr, kind) + "|" + ns else Prefix(gvr, kind) + "|"
  }

  function ObjectKey(ns: string, name: string): string {
    if |ns| > 0 then ns + "/" + name else name
  }

  predicate Plain(s: string) { '/' !in s && '|' !in s }

  predicate PlainType(gvr: Gvr, kind: string) {
    Plain(gvr.group) && Plain(gvr.version) && Plain(gvr.resource) && Plain(kind)
  }

  /** No part contains a separator that its place uses. */
  predicate Free(gvr: Gvr, kind: string, ns: string, name: string) {
    PlainType(gvr, kind) && '/' !in ns && '/' !in name
  }

  lemma SplitPrefix(gvr: Gvr, kind: string)
    requires PlainType(gvr, kind)
    ensures Split(Prefix(gvr, kind), '/') == [gvr.group, gvr.version, gvr.resource, kind]
    ensures '|' !in Prefix(gvr, kind)
  {
    var x3 := gvr.resource + ['/'] + kind;
    var x2 := gvr.version + ['/'] + x3;
    assert Prefix(gvr, kind) == gvr.group + ['/'] + x2;
    SplitJoined(gvr.group, '/', x2);
    SplitJoined(gvr.version, '/', x3);
    SplitJoined(gvr.resource, '/', kind);
    assert Split(kind, '/') == [kind];
  }

  lemma SplitMetaKey(ns: string, name: string)
    requires '/' !in ns && '/' !in name
    ensures SplitMeta(MetaKey(ns, name)) == Meta(ns, name)
  {
    assert Split(name, '/') == [name];
    if ns != "" { SplitJoined(ns, '/', name); }
  }

  lemma FreeRoundTrips(gvr: Gvr, kind: string, ns: string, name: string)
    requires Free(gvr, kind, ns, name)
    ensures SplitKey(BuildKey(gvr, kind, ns, name)) == Parts(gvr, kind, ns, name)
  {
    SplitPrefix(gvr, kind);
    CutJoined(Prefix(gvr, kind), '|', MetaKey(ns, name));
    SplitMetaKey(ns, name);
  }

  /** Whatever the key, the parts splitKey returns contain no separator. */
  lemma PartsAreFree(full: string)
    requires SplitKey(full).Parts?
    ensures
      var p := SplitKey(full);
      Free(p.gvr, p.kind, p.ns, p.name)
  {
    var (a, b) := Cut(full, '|').value;
    if SplitMeta(b).Meta? {
      PiecesAreFree(a, '/', '|', 0);
      PiecesAreFree(a, '/', '|', 1);
      PiecesAreFree(a, '/', '|', 2);
      PiecesAreFree(a, '/', '|', 3);
      PiecesAreFree(b, '/', '|', 0);
      if |Split(b, '/')| == 2 { PiecesAreFree(b, '/', '|', 1); }
    }
  }

  /** splitKey undoes buildKey exactly for separator-free parts, and then getObjectKey rebuilds the
      object's store key. */
  lemma RoundTripsExactly(gvr: Gvr, kind: string, ns: string, name: string)
    ensures SplitKey(BuildKey(gvr, kind, ns, name)) == Parts(gvr, kind, ns, name)
            <==> Free(gvr, kind, ns, name)
    ensures Free(gvr, kind, ns, name) ==>
      var p := SplitKey(BuildKey(gvr, kind, ns, name));
      ObjectKey(p.ns, p.name) == MetaKey(ns, name)
  {
    if Free(gvr, kind, ns, name) {
      FreeRoundTrips(gvr, kind, ns, name);
    } else if SplitKey(BuildKey(gvr, kind, ns, name)).Parts? {
      PartsAreFree(BuildKey(gvr, kind, ns, name));
    }
  }

  lemma BadMetaKey(a: string, b: string, name: string)
    requires '/' !in a && '/' !in b && '/' !in name
    ensures SplitMeta(MetaKey(a + "/" + b, name)) == BadMeta
  {
    assert MetaKey(a + "/" + b, name) == a + ['/'] + (b + ['/'] + name);
    SplitJoined(a, '/', b + ['/'] + name);
    SplitJoined(b, '/', name);
    assert Split(name, '/') == [name];
  }

  /** What splitKey does with any key: without a '|' it returns an error; with two or more '/' in the
      object part it returns empty parts and no error; with fewer than three '/' in the type part it
      panics; otherwise it returns the parts. */
  lemma SplitKeyExactly(full: string)
    ensures SplitKey(full) == Invalid <==> '|' !in full
    ensures '|' in full ==>
      var (kind, name) := Cut(full, '|').value;
      if Occurrences(name, '/') >= 2 then SplitKey(full) == Parts(Gvr("", "", ""), "", "", "")
      else (SplitKey(full) == Panics <==> Occurrences(kind, '/') < 3)
  {
    if '|' in full {
      var (kind, name) := Cut(full, '|').value;
      PiecesCounted(kind, '/');
      PiecesCounted(name, '/');
    }
  }

  /** A namespace with a '/' in it: splitKey returns empty parts and no error, whatever the type
      and the name are. */
  lemma SeparatorLosesParts(gvr: Gvr, kind: string, a: string, b: string, name: string)
    requires PlainType(gvr, kind) && '/' !in a && '/' !in b && '/' !in name
    ensures SplitKey(BuildKey(gvr, kind, a + "/" + b, name)) == Parts(Gvr("", "", ""), "", "", "")
  {
    SplitPrefix(gvr, kind);
    BadMetaKey(a, b, name);
    CutJoined(Prefix(gvr, kind), '|', MetaKey(a + "/" + b, name));
  }

  /** Informer keys tell types and namespaces apart. */
  lemma InformerKeysInjective(g: Gvr, k: string, ns: string, g': Gvr, k': string, ns': string)
    requires PlainType(g, k) && PlainType(g', k')
    requires InformerKey(g, k, ns) == InformerKey(g', k', ns')
    ensures g == g' && k == k' && ns == ns'
  {
    SplitPrefix(g, k);
    SplitPrefix(g', k');
    assert InformerKey(g, k, ns) == Prefix(g, k) + ['|'] + ns;
    assert InformerKey(g', k', ns') == Prefix(g', k') + ['|'] + ns';
    SameJoined(Prefix(g, k), Prefix(g', k'), '|', ns, ns');
    assert [g.group, g.version, g.resource, k][0] == [g'.group, g'.version, g'.resource, k'][0];
    assert [g.group, g.version, g.resource, k][1] == [g'.group, g'.version, g'.resource, k'][1];
    assert [g.group, g.version, g.resource, k][2] == [g'.group, g'.version, g'.resource, k'][2];
    assert [g.group, g.version, g.resource, k][3] == [g'.group, g'.version, g'.resource, k'][3];
  }
}
