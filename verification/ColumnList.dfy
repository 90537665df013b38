/** The list of columns: how `parseColumns` (internal/batch/worker.go) takes it from the embedded
    asset, how the statement lists it, and how a reader of SQL that knows nothing of the writer
    finds the columns of krateo_resources in it. */
module ColumnList {
  import opened Jobs
  import opened Records
  import opened Strings

  // Writing.

  /** The entries, separated by ", ". */
  function Join(cols: seq<string>): string {
    if cols == [] then "" else if |cols| == 1 then cols[0] else Join(cols[..|cols| - 1]) + ", " + cols[|cols| - 1]
  }

  // Reading.

  predicate IsWord(c: char) { 'a' <= c <= 'z' || 'A' <= c <= 'Z' || '0' <= c <= '9' || c == '_' }

  predicate IsBlank(c: char) { c == ' ' || c == '\t' || c == '\n' || c == '\r' }

  predicate StartsComment(s: string) { |s| >= 2 && s[0] == '-' && s[1] == '-' }

  /** Skips white space and comments that run to the end of their line. */
  function SkipBlank(s: string): (r: string)
    ensures |r| <= |s|
    decreases |s|
  {
    if s != [] && IsBlank(s[0]) then SkipBlank(s[1..]) else
    if !StartsComment(s) then s else
    match Cut(s, '\n')
    case None => s
    case Some((_, rest)) => SkipBlank(rest)
  }

  function ReadWord(s: string): (r: (string, string))
    ensures |r.1| <= |s|
  {
    if s != [] && IsWord(s[0]) then ([s[0]] + ReadWord(s[1..]).0, ReadWord(s[1..]).1) else ("", s)
  }

  /** Reads one name, with white space and comments around it. */
  function ReadName(s: string): (r: Option<(string, string)>)
    ensures r.Some? ==> |r.value.1| <= |s|
  {
    var (w, rest) := ReadWord(SkipBlank(s));
    if w == "" then None else Some((w, SkipBlank(rest)))
  }

  /** Reads a name and then, after each comma, another, up to the closing parenthesis. */
  function ReadNames(s: string): Option<(seq<string>, string)>
    decreases |s|
  {
    match ReadName(s)
    case None => None
    case Some((n, rest)) =>
      if rest == [] then None else
      if rest[0] == ')' then Some(([n], rest[1..])) else
      if rest[0] != ',' then None else
      match ReadNames(rest[1..])
      case None => None
      case Some((ns, tail)) => Some(([n] + ns, tail))
  }

  function Name(c: Column): string {
    match c
    case CreatedAt => "created_at"
    case UpdatedAt => "updated_at"
    case DeletedAt => "deleted_at"
    case ClusterName => "cluster_name"
    case Uid => "uid"
    case GlobalUid => "global_uid"
    case Namespace => "namespace"
    case ResourceGroup => "resource_group"
    case ResourceVersion => "resource_version"
    case ResourceKind => "resource_kind"
    case ResourcePlural => "resource_plural"
    case ResourceName => "resource_name"
    case CompositionId => "composition_id"
    case Raw => "raw"
    case StatusRaw => "status_raw"
  }

  /** The columns in the order of internal/batch/assets/cols.sql. */
  const ORDER: seq<Column> := [
    CreatedAt, UpdatedAt, DeletedAt, ClusterName, Uid, GlobalUid, Namespace, ResourceGroup,
    ResourceVersion, ResourceKind, ResourcePlural, ResourceName, CompositionId, Raw, StatusRaw]

  /** The first of these columns that has the name. */
  function Named(n: string, cs: seq<Column>): (r: Option<Column>)
    ensures r.Some? ==> r.value in cs && Name(r.value) == n
    ensures r.None? ==> forall c :: c in cs ==> Name(c) != n
  {
    if cs == [] then None else if Name(cs[0]) == n then Some(cs[0]) else Named(n, cs[1..])
  }

  /** The columns that the names name, or None if the table has no column of such a name. */
  function Resolve(names: seq<string>): (r: Option<seq<Column>>)
    ensures r.Some? ==> |r.value| == |names| && forall i :: 0 <= i < |names| ==> Name(r.value[i]) == names[i]
  {
    if names == [] then Some([]) else
    match Named(names[0], ORDER)
    case None => None
    case Some(c) =>
      match Resolve(names[1..])
      case None => None
      case Some(cs) => Some([c] + cs)
  }

  /** A list of names is refused only for a name that no column has. */
  lemma {:induction false} RefusedForUnknown(names: seq<string>) returns (i: nat)
    requires Resolve(names).None?
    ensures i < |names| && forall c :: c in ORDER ==> Name(c) != names[i]
  {
    if Named(names[0], ORDER).None? {
      i := 0;
    } else {
      i := RefusedForUnknown(names[1..]);
      i := i + 1;
    }
  }

  predicate NoRepeat(cols: seq<Column>) { forall i, j :: 0 <= i < j < |cols| ==> cols[i] != cols[j] }

  /** Every column of the table is named, and none twice. */
  predicate EachOnce(cols: seq<Column>) { NoRepeat(cols) && forall c: Column :: c in cols }

  function Index(cols: seq<Column>, c: Column): (i: nat)
    requires c in cols
    ensures i < |cols| && cols[i] == c
  {
    if cols[0] == c then 0 else 1 + Index(cols[1..], c)
  }

  /** The row that one tuple of values makes, the i-th value going to the i-th column named. */
  function RowOf(cols: seq<Column>, w: seq<Value>): Row
    requires EachOnce(cols) && |w| == |cols|
  {
    RowWith(c => w[Index(cols, c)])
  }

  // The columns and their order.

  lemma NamesDiffer(c: Column, d: Column)
    requires Name(c) == Name(d)
    ensures c == d
  {
  }

  /** Where cols.sql lists the column. */
  function Place(c: Column): (i: nat)
    ensures i < FIELDS && ORDER[i] == c
  {
    match c
    case CreatedAt => 0 case UpdatedAt => 1 case DeletedAt => 2 case ClusterName => 3 case Uid => 4
    case GlobalUid => 5 case Namespace => 6 case ResourceGroup => 7 case ResourceVersion => 8
    case ResourceKind => 9 case ResourcePlural => 10 case ResourceName => 11 case CompositionId => 12
    case Raw => 13 case StatusRaw => 14
  }

  lemma PlaceOf(i: nat)
    requires i < FIELDS
    ensures Place(ORDER[i]) == i
  {
  }

  lemma OrderEachOnce()
    ensures EachOnce(ORDER)
  {
    forall c: Column ensures c in ORDER { assert ORDER[Place(c)] == c; }
    forall i, j | 0 <= i < j < FIELDS ensures ORDER[i] != ORDER[j] { PlaceOf(i); PlaceOf(j); }
  }

  lemma NamedFinds(c: Column)
    ensures Named(Name(c), ORDER) == Some(c)
  {
    assert ORDER[Place(c)] in ORDER;
    NamesDiffer(c, Named(Name(c), ORDER).value);
  }

  /** Resolving the names of columns gives these columns. */
  lemma {:induction false} ResolvesNames(names: seq<string>, cs: seq<Column>)
    requires |names| == |cs| && forall i :: 0 <= i < |cs| ==> names[i] == Name(cs[i])
    ensures Resolve(names) == Some(cs)
  {
    if cs != [] {
      NamedFinds(cs[0]);
      ResolvesNames(names[1..], cs[1..]);
      ResolvesFirst(names, cs[0], cs[1..]);
      assert [cs[0]] + cs[1..] == cs;
    }
  }

  lemma ResolvesFirst(names: seq<string>, c: Column, cs: seq<Column>)
    requires names != [] && Named(names[0], ORDER) == Some(c) && Resolve(names[1..]) == Some(cs)
    ensures Resolve(names) == Some([c] + cs)
  {
  }

  lemma {:induction false} CountsOnce(cols: seq<Column>, c: Column)
    requires NoRepeat(cols)
    ensures multiset(cols)[c] == if c in cols then 1 else 0
  {
    if cols != [] {
      var n := |cols| - 1;
      CountsOnce(cols[..n], c);
      assert cols == cols[..n] + [cols[n]];
    }
  }

  lemma EachOnceSize(cols: seq<Column>)
    requires EachOnce(cols)
    ensures |cols| == FIELDS
  {
    OrderEachOnce();
    forall c ensures multiset(cols)[c] == multiset(ORDER)[c] {
      CountsOnce(cols, c);
      CountsOnce(ORDER, c);
    }
    assert multiset(cols) == multiset(ORDER);
    assert |multiset(cols)| == |cols|;
  }

  lemma FieldInPlace(r: Record, c: Column)
    ensures Fields(r)[Place(c)] == Cell(r, c)
  {
  }

  lemma FieldsInOrder(r: Record, c: Column)
    requires c in ORDER
    ensures Fields(r)[Index(ORDER, c)] == Cell(r, c)
  {
    PlaceOf(Index(ORDER, c));
    FieldInPlace(r, c);
  }

  /** A record whose fields are all different. */
  function Telling(): Record {
    Record(0, 1, None, "", "1", "12", "123", "1234", "12345", "123456", "1234567", "12345678",
           "123456789", [], None)
  }

  lemma TellingFields(i: nat, j: nat)
    requires i < FIELDS && j < FIELDS && Fields(Telling())[i] == Fields(Telling())[j]
    ensures i == j
  {
  }

  lemma SameCells(f: Column -> Value, g: Column -> Value, c: Column)
    requires RowWith(f) == RowWith(g)
    ensures f(c) == g(c)
  {
  }

  lemma InOrderWhenRight(cols: seq<Column>)
    requires EachOnce(cols) && |cols| == FIELDS && RowOf(cols, Fields(Telling())) == ToRow(Telling())
    ensures cols == ORDER
  {
    var v := Fields(Telling());
    forall i | 0 <= i < FIELDS ensures cols[i] == ORDER[i] {
      var c := ORDER[i];
      SameCells(c => v[Index(cols, c)], c => Cell(Telling(), c), c);
      FieldInPlace(Telling(), c);
      PlaceOf(i);
      TellingFields(Index(cols, c), i);
    }
  }

  lemma InOrderIsRight(r: Record)
    ensures EachOnce(ORDER) && RowOf(ORDER, Fields(r)) == ToRow(r)
  {
    OrderEachOnce();
    forall c ensures Fields(r)[Index(ORDER, c)] == Cell(r, c) { FieldsInOrder(r, c); }
  }

  /** The order in which `sync` appends a record's fields puts each field into its own column
      exactly when the statement names the columns in the order of cols.sql. */
  lemma FieldsLandInTheirColumns(cols: seq<Column>)
    requires EachOnce(cols)
    ensures |cols| == FIELDS
    ensures (forall r :: RowOf(cols, Fields(r)) == ToRow(r)) <==> cols == ORDER
  {
    EachOnceSize(cols);
    if cols == ORDER {
      forall r ensures RowOf(cols, Fields(r)) == ToRow(r) { InOrderIsRight(r); }
    } else if forall r :: RowOf(cols, Fields(r)) == ToRow(r) {
      InOrderWhenRight(cols);
    }
  }

  // Reading undoes writing.

  /** An entry of the list that reads as one name and nothing else. */
  function EntryName(e: string): (r: Option<string>) {
    match ReadName(e)
    case None => None
    case Some((n, rest)) => if rest == [] then Some(n) else None
  }

  predicate Readable(cols: seq<string>) { forall i :: 0 <= i < |cols| ==> EntryName(cols[i]).Some? }

  function NamesOf(cols: seq<string>): (ns: seq<string>)
    requires Readable(cols)
    ensures |ns| == |cols|
  {
    seq(|cols|, i requires 0 <= i < |cols| => EntryName(cols[i]).value)
  }

  lemma CommentStable(s: string, x: string)
    requires StartsComment(s) && Cut(s, '\n').Some?
    ensures StartsComment(s + x) && Cut(s + x, '\n') == Some((Cut(s, '\n').value.0, Cut(s, '\n').value.1 + x))
  {
    var (b, rest) := Cut(s, '\n').value;
    RegroupTail(b, ['\n'], rest, x);
    RegroupLine(b, ['\n'], rest + x);
    CutJoined(b, '\n', rest + x);
  }

  lemma RegroupLine(a: string, b: string, c: string)
    ensures a + b + c == a + (b + c)
  {
  }

  lemma SkipBlankStep(s: string, x: string)
    requires s != [] && IsBlank(s[0])
    ensures SkipBlank(s) == SkipBlank(s[1..]) && SkipBlank(s + x) == SkipBlank(s[1..] + x)
  {
    assert (s + x)[1..] == s[1..] + x;
  }

  lemma SkipCommentStep(s: string, x: string)
    requires StartsComment(s) && Cut(s, '\n').Some?
    ensures
      var rest := Cut(s, '\n').value.1;
      SkipBlank(s) == SkipBlank(rest) && SkipBlank(s + x) == SkipBlank(rest + x)
  {
    CommentStable(s, x);
  }

  lemma {:induction false} SkipBlankStable(s: string, x: string)
    requires SkipBlank(s) == [] || IsWord(SkipBlank(s)[0])
    ensures SkipBlank(s + x) == if SkipBlank(s) == [] then SkipBlank(x) else SkipBlank(s) + x
    decreases |s|
  {
    if s == [] {
      assert s + x == x;
    } else if IsBlank(s[0]) {
      SkipBlankStep(s, x);
      SkipBlankStable(s[1..], x);
    } else if StartsComment(s) {
      SkipCommentStep(s, x);
      SkipBlankStable(Cut(s, '\n').value.1, x);
    } else {
      assert SkipBlank(s) == s && (s + x)[0] == s[0];
    }
  }

  lemma {:induction false} ReadWordStable(s: string, x: string)
    requires x != [] && !IsWord(x[0])
    ensures ReadWord(s + x) == (ReadWord(s).0, ReadWord(s).1 + x)
  {
    var y := s + x;
    if s == [] {
      assert y == x;
    } else {
      assert y[1..] == s[1..] + x;
      if IsWord(s[0]) { ReadWordStable(s[1..], x); }
    }
  }

  /** An entry followed by a comma or a closing parenthesis reads as its name. */
  lemma ReadNameStable(e: string, x: string)
    requires EntryName(e).Some? && x != [] && (x[0] == ',' || x[0] == ')')
    ensures ReadName(e + x) == Some((EntryName(e).value, x))
  {
    SkipBlankStable(e, x);
    ReadWordStable(SkipBlank(e), x);
    SkipBlankStable(ReadWord(SkipBlank(e)).1, x);
  }

  lemma SkipsSpace(x: string)
    ensures ReadNames(" " + x) == ReadNames(x)
  {
    assert (" " + x)[1..] == x;
    assert ReadName(" " + x) == ReadName(x);
  }

  lemma ReadsLastName(e: string, tail: string)
    requires EntryName(e).Some?
    ensures ReadNames(e + (")" + tail)) == Some(([EntryName(e).value], tail))
  {
    ReadNameStable(e, ")" + tail);
    assert (")" + tail)[1..] == tail;
  }

  lemma ReadsFirstName(e: string, more: string, ns: seq<string>, tail: string)
    requires EntryName(e).Some? && ReadNames(more) == Some((ns, tail))
    ensures ReadNames(e + (", " + more)) == Some(([EntryName(e).value] + ns, tail))
  {
    var x := ", " + more;
    ReadNameStable(e, x);
    assert x[1..] == " " + more;
    SkipsSpace(more);
  }

  lemma {:induction false} JoinFront(cols: seq<string>)
    requires |cols| >= 2
    ensures Join(cols) == cols[0] + ", " + Join(cols[1..])
  {
    var n := |cols| - 1;
    if n > 1 {
      JoinFront(cols[..n]);
      assert cols[..n][1..] == cols[1..][..n - 1];
      assert cols[1..][n - 1] == cols[n];
      RegroupMiddle(cols[0], ", ", Join(cols[1..][..n - 1]), ", ", cols[n]);
    }
  }

  lemma NamesOfFront(cols: seq<string>)
    requires cols != [] && Readable(cols)
    ensures Readable(cols[1..]) && NamesOf(cols) == [EntryName(cols[0]).value] + NamesOf(cols[1..])
  {
  }

  lemma ReadsMoreNames(cols: seq<string>, tail: string, ns: seq<string>)
    requires |cols| >= 2 && EntryName(cols[0]).Some?
    requires ReadNames(Join(cols[1..]) + (")" + tail)) == Some((ns, tail))
    ensures ReadNames(Join(cols) + (")" + tail)) == Some(([EntryName(cols[0]).value] + ns, tail))
  {
    ReadsFirstName(cols[0], Join(cols[1..]) + (")" + tail), ns, tail);
    JoinFront(cols);
    RegroupTail(cols[0], ", ", Join(cols[1..]), ")" + tail);
  }

  /** The list that the statement writes reads back as the names of its entries. */
  lemma {:induction false} ReadsNames(cols: seq<string>, tail: string)
    requires cols != [] && Readable(cols)
    ensures ReadNames(Join(cols) + (")" + tail)) == Some((NamesOf(cols), tail))
    decreases |cols|
  {
    NamesOfFront(cols);
    if |cols| == 1 {
      ReadsLastName(cols[0], tail);
      assert NamesOf(cols) == [EntryName(cols[0]).value];
    } else {
      ReadsNames(cols[1..], tail);
      ReadsMoreNames(cols, tail, NamesOf(cols[1..]));
    }
  }

  // The embedded asset.

  /** The trimmed pieces, without the empty ones. */
  function Kept(parts: seq<string>): seq<string> {
    if parts == [] then [] else
    var c := TrimSpace(parts[|parts| - 1]);
    Kept(parts[..|parts| - 1]) + if c != "" then [c] else []
  }

  predicate TrimsAt(parts: seq<string>, i: nat, e: string) { i < |parts| && TrimSpace(parts[i]) == e }

  lemma {:induction false} KeptGives(parts: seq<string>, e: string) returns (i: nat)
    requires e in Kept(parts)
    ensures e != "" && TrimsAt(parts, i, e)
    decreases |parts|
  {
    var n := |parts| - 1;
    KeptLast(parts, e);
    if TrimSpace(parts[n]) == e && e != "" {
      i := n;
    } else {
      i := KeptGives(parts[..n], e);
      assert parts[..n][i] == parts[i];
    }
  }

  lemma {:induction false} TrimmedIsKept(parts: seq<string>, i: nat, e: string)
    requires TrimsAt(parts, i, e) && e != ""
    ensures e in Kept(parts)
    decreases |parts|
  {
    var n := |parts| - 1;
    KeptLast(parts, e);
    if i < n {
      assert parts[..n][i] == parts[i];
      TrimmedIsKept(parts[..n], i, e);
    }
  }

  /** The entries are the trimmed pieces that are not empty. */
  lemma KeptExactly(parts: seq<string>, e: string)
    ensures e in Kept(parts) <==> e != "" && exists i: nat :: TrimsAt(parts, i, e)
  {
    if e in Kept(parts) { var i := KeptGives(parts, e); }
    if i: nat :| e != "" && TrimsAt(parts, i, e) { TrimmedIsKept(parts, i, e); }
  }

  lemma KeptLast(parts: seq<string>, e: string)
    requires parts != []
    ensures e in Kept(parts) <==>
      e in Kept(parts[..|parts| - 1]) || (e != "" && TrimSpace(parts[|parts| - 1]) == e)
  {
    var c := TrimSpace(parts[|parts| - 1]);
    if c != "" { assert [c][0] == c; }
  }

  method ParseColumns(s: string) returns (out: seq<string>)
    ensures out == Kept(Split(s, ','))
    ensures forall e :: e in out <==> e != "" && exists i: nat :: TrimsAt(Split(s, ','), i, e)
  {
    var lines := Split(s, ',');
    out := [];
    for i := 0 to |lines|
      invariant out == Kept(lines[..i])
    {
      assert lines[..i + 1][..i] == lines[..i];
      var c := TrimSpace(lines[i]);
      if c != "" { out := out + [c]; }
    }
    assert lines[..|lines|] == lines;
    forall e ensures e in out <==> e != "" && exists i: nat :: TrimsAt(lines, i, e) {
      KeptExactly(lines, e);
    }
  }

  /** One entry a line, with a comma after each but the last. */
  function Lines(cols: seq<string>): string
    requires cols != []
  {
    if |cols| == 1 then cols[0] else cols[0] + ",\n" + Lines(cols[1..])
  }

  /** No comma, and no white space around it. */
  predicate Tidy(e: string) { e != "" && ',' !in e && !IsSpace(e[0]) && !IsSpace(e[|e| - 1]) }

  lemma {:induction false} KeptFront(x: string, rest: seq<string>)
    ensures Kept([x] + rest) == Kept([x]) + Kept(rest)
  {
    if rest == [] {
      assert [x] + rest == [x];
    } else {
      var n := |rest| - 1;
      KeptFront(x, rest[..n]);
      assert ([x] + rest)[..n + 1] == [x] + rest[..n];
    }
  }

  lemma TrimsTo(p: string, e: string)
    requires Tidy(e) && (p == "" || p == "\n")
    ensures Kept([p + e]) == [e]
  {
    var s := p + e;
    assert Kept([s]) == Kept([s][..0]) + if TrimSpace(s) != "" then [TrimSpace(s)] else [];
    if p == "" { assert s == e; } else { assert s[1..] == e; }
    assert TrimLeft(e) == e && TrimLeft(s) == e;
  }

  lemma SplitsEntry(p: string, e: string, more: string)
    requires Tidy(e) && (p == "" || p == "\n")
    ensures Split(p + (e + ",\n" + more), ',') == [p + e] + Split("\n" + more, ',')
  {
    assert p + (e + ",\n" + more) == (p + e) + [','] + ("\n" + more);
    SplitJoined(p + e, ',', "\n" + more);
  }

  lemma {:induction false} ParsesFrom(p: string, cols: seq<string>)
    requires cols != [] && (forall i :: 0 <= i < |cols| ==> Tidy(cols[i])) && (p == "" || p == "\n")
    ensures Kept(Split(p + Lines(cols), ',')) == cols
    decreases |cols|
  {
    TrimsTo(p, cols[0]);
    if |cols| == 1 {
      assert Split(p + cols[0], ',') == [p + cols[0]];
      assert cols == [cols[0]];
    } else {
      ParsesFrom("\n", cols[1..]);
      SplitsEntry(p, cols[0], Lines(cols[1..]));
      KeptFront(p + cols[0], Split("\n" + Lines(cols[1..]), ','));
      assert cols == [cols[0]] + cols[1..];
    }
  }

  /** The entries `parseColumns` finds in cols.sql; the comment line of that file stays with the
      first of them. */
  const COLUMNS: seq<string> := [
    COMMENT + "\n" + "created_at", "updated_at", "deleted_at", "cluster_name",
    "uid", "global_uid", "namespace", "resource_group", "resource_version", "resource_kind",
    "resource_plural", "resource_name", "composition_id", "raw", "status_raw"]

  const COMMENT := "-- Ordered list of columns used by COPY"

  lemma NamesAreWords(c: Column)
    ensures Name(c) != "" && forall i :: 0 <= i < |Name(c)| ==> IsWord(Name(c)[i])
  {
  }

  lemma {:induction false} WordReads(e: string)
    requires forall i :: 0 <= i < |e| ==> IsWord(e[i])
    ensures ReadWord(e) == (e, "")
  {
    if e != [] {
      WordReads(e[1..]);
      assert [e[0]] + e[1..] == e;
    }
  }

  lemma WordIsEntry(e: string)
    requires e != "" && forall i :: 0 <= i < |e| ==> IsWord(e[i])
    ensures EntryName(e) == Some(e) && Tidy(e)
  {
    WordReads(e);
    assert SkipBlank(e) == e;
  }

  lemma CommentIsOneLine()
    ensures '\n' !in COMMENT && StartsComment(COMMENT) && !IsSpace(COMMENT[0])
  {
  }

  lemma CommentHasNoComma()
    ensures ',' !in COMMENT
  {
  }

  /** A comment line in front of a name does not change what is read. */
  lemma CommentedEntry(e: string)
    requires Tidy(e) && EntryName(e) == Some(e)
    ensures EntryName(COMMENT + "\n" + e) == Some(e) && Tidy(COMMENT + "\n" + e)
  {
    CommentIsOneLine();
    CommentHasNoComma();
    var s := COMMENT + ['\n'] + e;
    CutJoined(COMMENT, '\n', e);
    assert StartsComment(s);
    assert SkipBlank(s) == SkipBlank(e);
  }

  lemma EntryIsName(i: nat)
    requires 0 < i < FIELDS
    ensures COLUMNS[i] == Name(ORDER[i])
  {
  }

  lemma ColumnEntry(i: nat)
    requires i < FIELDS
    ensures EntryName(COLUMNS[i]) == Some(Name(ORDER[i])) && Tidy(COLUMNS[i])
  {
    var n := Name(ORDER[i]);
    NamesAreWords(ORDER[i]);
    WordIsEntry(n);
    if i == 0 { CommentedEntry(n); } else { EntryIsName(i); }
  }

  /** The list names the columns of the table in the order of the fields. */
  predicate InOrder(cols: seq<string>) {
    Readable(cols) && Resolve(NamesOf(cols)) == Some(ORDER)
  }

  /** cols.sql, parsed, gives entries that read as the table's columns in the order of the fields,
      although its comment line is part of the first entry. */
  lemma AssetInOrder()
    ensures Kept(Split(Lines(COLUMNS), ',')) == COLUMNS
    ensures InOrder(COLUMNS)
  {
    forall i | 0 <= i < FIELDS ensures EntryName(COLUMNS[i]) == Some(Name(ORDER[i])) && Tidy(COLUMNS[i]) {
      ColumnEntry(i);
    }
    assert "" + Lines(COLUMNS) == Lines(COLUMNS);
    ParsesFrom("", COLUMNS);
    ResolvesNames(NamesOf(COLUMNS), ORDER);
  }
}
