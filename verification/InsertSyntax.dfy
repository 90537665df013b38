/** The fixed parts of the INSERT statement of `Worker.sync` (internal/batch/worker.go), and a reader
    of SQL for them that knows nothing of how they are written. */
module InsertSyntax {
  import opened Jobs
  import opened Records
  import opened UpsertTable
  import opened Strings
  import opened ColumnList

  // Writing.

  const HEAD := "INSERT INTO krateo_resources ("
  const VALUES := " VALUES "
  const TAIL: string := KEY + (UPDATE + (FIRST + SECOND))
  const KEY := "\n\t\tON CONFLICT (global_uid)"
  const UPDATE := " DO UPDATE SET"
  const FIRST := "\n\t\t\tdeleted_at = EXCLUDED.deleted_at,"
  const SECOND := "\n\t\t\traw = EXCLUDED.raw\n\t"

  // Reading.

  /** Reads one word, which must be this one. */
  function ReadKeyword(s: string, k: string): (r: Option<string>)
    ensures r.Some? ==> |r.value| <= |s|
  {
    var (w, rest) := ReadWord(SkipBlank(s));
    if w == k then Some(rest) else None
  }

  /** Reads one character, which must be this one. */
  function ReadChar(s: string, c: char): (r: Option<string>)
    ensures r.Some? ==> |r.value| < |s|
  {
    var t := SkipBlank(s);
    if t != [] && t[0] == c then Some(t[1..]) else None
  }

  /** INSERT INTO name ( */
  function ReadInto(s: string): Option<(string, string)> {
    match ReadKeyword(s, "INSERT")
    case None => None
    case Some(a) =>
      match ReadKeyword(a, "INTO")
      case None => None
      case Some(b) =>
        match ReadName(b)
        case None => None
        case Some((table, c)) =>
          match ReadChar(c, '(')
          case None => None
          case Some(rest) => Some((table, rest))
  }

  /** name = EXCLUDED.name */
  function ReadSet(s: string): (r: Option<((string, string), string)>)
    ensures r.Some? ==> |r.value.1| < |s|
  {
    match ReadName(s)
    case None => None
    case Some((target, a)) =>
      match ReadChar(a, '=')
      case None => None
      case Some(b) =>
        match ReadKeyword(b, "EXCLUDED")
        case None => None
        case Some(c) =>
          match ReadChar(c, '.')
          case None => None
          case Some(d) =>
            match ReadName(d)
            case None => None
            case Some((source, rest)) => Some(((target, source), rest))
  }

  /** One or more of these, separated by commas, up to the end of the text. */
  function ReadSets(s: string): Option<seq<(string, string)>>
    decreases |s|
  {
    match ReadSet(s)
    case None => None
    case Some((first, rest)) =>
      if rest == [] then Some([first]) else
      if rest[0] != ',' then None else
      match ReadSets(rest[1..])
      case None => None
      case Some(more) => Some([first] + more)
  }

  /** ON CONFLICT ( names ) DO UPDATE SET sets, to the end of the text. */
  function ReadConflict(s: string): Option<(seq<string>, seq<(string, string)>)> {
    match ReadTarget(s)
    case None => None
    case Some((key, a)) =>
      match ReadUpdate(a)
      case None => None
      case Some(b) =>
        match ReadSets(b)
        case None => None
        case Some(sets) => Some((key, sets))
  }

  /** ON CONFLICT ( names ) */
  function ReadTarget(s: string): Option<(seq<string>, string)> {
    match ReadKeyword(s, "ON")
    case None => None
    case Some(a) =>
      match ReadKeyword(a, "CONFLICT")
      case None => None
      case Some(b) =>
        match ReadChar(b, '(')
        case None => None
        case Some(c) => ReadNames(c)
  }

  /** DO UPDATE SET */
  function ReadUpdate(s: string): Option<string> {
    match ReadKeyword(s, "DO")
    case None => None
    case Some(a) =>
      match ReadKeyword(a, "UPDATE")
      case None => None
      case Some(b) => ReadKeyword(b, "SET")
  }

  function Targets(sets: seq<(string, string)>): (r: seq<string>)
    ensures |r| == |sets| && forall i :: 0 <= i < |sets| ==> r[i] == sets[i].0
  {
    seq(|sets|, i requires 0 <= i < |sets| => sets[i].0)
  }

  function Sources(sets: seq<(string, string)>): (r: seq<string>)
    ensures |r| == |sets| && forall i :: 0 <= i < |sets| ==> r[i] == sets[i].1
  {
    seq(|sets|, i requires 0 <= i < |sets| => sets[i].1)
  }

  /** What the clause sets on a conflict of global_uid. It is refused if it names another key or an
      unknown column, or sets a column twice; and, in this model, if it sets the key. */
  function ReadClause(s: string): Option<Assignments> {
    match ReadConflict(s)
    case None => None
    case Some((key, sets)) =>
      var to, from := Resolve(Targets(sets)), Resolve(Sources(sets));
      if Resolve(key) != Some([GlobalUid]) || to.None? || from.None? then None else Assigning(to.value, from.value)
  }

  function Assigning(to: seq<Column>, from: seq<Column>): Option<Assignments>
    requires |to| == |from|
  {
    if !NoRepeat(to) || GlobalUid in to then None else Some(map c | c in to :: from[Index(to, c)])
  }

  // Reading undoes writing.

  predicate Blank(b: string) { forall i :: 0 <= i < |b| ==> IsBlank(b[i]) }

  predicate Word(k: string) { k != "" && forall i :: 0 <= i < |k| ==> IsWord(k[i]) }

  /** Nothing that would go on the word before it. */
  predicate Ends(x: string) { x == "" || !IsWord(x[0]) }

  lemma {:induction false} SkipsBlanks(b: string, x: string)
    requires Blank(b)
    ensures SkipBlank(b + x) == SkipBlank(x)
  {
    if b == [] {
      assert b + x == x;
    } else {
      SkipsBlanks(b[1..], x);
      assert (b + x)[1..] == b[1..] + x;
    }
  }

  lemma WordStays(k: string, x: string)
    requires Word(k)
    ensures SkipBlank(k + x) == k + x
  {
    assert (k + x)[0] == k[0];
  }

  lemma ReadsWord(k: string, x: string)
    requires Word(k) && Ends(x)
    ensures ReadWord(k + x) == (k, x)
  {
    WordReads(k);
    if x == "" { assert k + x == k; } else { ReadWordStable(k, x); }
    assert "" + x == x;
  }

  lemma ReadsKeyword(b: string, k: string, x: string)
    requires Blank(b) && Word(k) && Ends(x)
    ensures ReadKeyword(b + (k + x), k) == Some(x)
  {
    SkipsBlanks(b, k + x);
    WordStays(k, x);
    ReadsWord(k, x);
  }

  lemma ReadsName(b: string, n: string, x: string)
    requires Blank(b) && Word(n) && Ends(x)
    ensures ReadName(b + (n + x)) == Some((n, SkipBlank(x)))
  {
    SkipsBlanks(b, n + x);
    WordStays(n, x);
    ReadsWord(n, x);
  }

  /** A character that is neither white space nor the start of a comment. */
  predicate Mark(c: char) { !IsBlank(c) && c != '-' }

  lemma ReadsChar(b: string, c: char, x: string)
    requires Blank(b) && Mark(c)
    ensures ReadChar(b + ([c] + x), c) == Some(x)
    ensures SkipBlank(b + ([c] + x)) == [c] + x
  {
    SkipsBlanks(b, [c] + x);
    assert ([c] + x)[0] == c && ([c] + x)[1..] == x;
  }

  lemma ReadsCharNow(c: char, x: string)
    requires Mark(c)
    ensures ReadChar([c] + x, c) == Some(x) && SkipBlank([c] + x) == [c] + x
  {
    ReadsChar("", c, x);
    assert "" + ([c] + x) == [c] + x;
  }

  lemma Words()
    ensures Word("INSERT") && Word("INTO") && Word("VALUES") && Word("ON") && Word("CONFLICT")
    ensures Word("DO") && Word("UPDATE") && Word("SET") && Word("EXCLUDED")
    ensures Word("krateo_resources") && Word("global_uid") && Word("deleted_at") && Word("raw")
  {
  }

  lemma Blanks()
    ensures Blank("") && Blank(" ") && Blank("\n\t\t") && Blank("\n\t\t\t") && Blank("\n\t")
  {
  }

  lemma EndsWith(c: char, x: string)
    requires !IsWord(c)
    ensures Ends([c] + x)
  {
  }

  lemma BlankEnds(x: string)
    ensures Ends(" " + x)
  {
  }

  lemma ReadsNext(k: string, x: string)
    requires Word(k) && Ends(x)
    ensures ReadKeyword(" " + (k + x), k) == Some(x) && Ends(" " + (k + x))
  {
    Blanks();
    ReadsKeyword(" ", k, x);
    BlankEnds(k + x);
  }

  lemma ReadsSet(b: string, n: string, m: string, x: string)
    requires Blank(b) && Word(n) && Word(m) && Ends(x)
    ensures ReadSet(b + (n + (" " + (['='] + (" " + ("EXCLUDED" + (['.'] + (m + x)))))))) ==
            Some(((n, m), SkipBlank(x)))
  {
    Words();
    Blanks();
    var e := ['.'] + (m + x);
    var d := " " + ("EXCLUDED" + e);
    var c := " " + (['='] + d);
    BlankEnds(['='] + d);
    ReadsName(b, n, c);
    ReadsChar(" ", '=', d);
    ReadsCharNow('=', d);
    EndsWith('.', m + x);
    ReadsNext("EXCLUDED", e);
    ReadsCharNow('.', m + x);
    ReadsName("", m, x);
    assert "" + (m + x) == m + x;
  }

  lemma IntoReads(x: string)
    ensures ReadInto("" + ("INSERT" + (" " + ("INTO" + (" " + ("krateo_resources" + (" " + (['('] + x)))))))) ==
            Some(("krateo_resources", x))
  {
    Words();
    Blanks();
    var c := " " + (['('] + x);
    var b := " " + ("krateo_resources" + c);
    var a := " " + ("INTO" + b);
    BlankEnds(['('] + x);
    BlankEnds("krateo_resources" + c);
    BlankEnds("INTO" + b);
    ReadsKeyword("", "INSERT", a);
    ReadsNext("INTO", b);
    ReadsName(" ", "krateo_resources", c);
    ReadsChar(" ", '(', x);
    ReadsCharNow('(', x);
  }

  // The parts as they are written.

  lemma HeadParts(x: string)
    ensures HEAD + x == "" + ("INSERT" + (" " + ("INTO" + (" " + ("krateo_resources" + (" " + (['('] + x)))))))
  {
    assert HEAD == "INSERT" + (" " + ("INTO" + (" " + ("krateo_resources" + (" " + ['('])))));
  }

  lemma KeyParts(x: string)
    ensures KEY + x == "\n\t\t" + ("ON" + (" " + ("CONFLICT" + (" " + (['('] + ("global_uid" + (")" + x)))))))
  {
    assert KEY == "\n\t\t" + ("ON" + (" " + ("CONFLICT" + (" " + (['('] + ("global_uid" + ")"))))));
  }

  lemma UpdateParts(x: string)
    ensures UPDATE + x == " " + ("DO" + (" " + ("UPDATE" + (" " + ("SET" + x)))))
  {
  }

  lemma FirstIs()
    ensures FIRST ==
      "\n\t\t\t" + ("deleted_at" + (" " + (['='] + (" " + ("EXCLUDED" + (['.'] + ("deleted_at" + [','])))))))
  {
  }

  lemma RegroupSet(a: string, b: string, c: string, d: string, e: string, f: string, g: string, h: string, x: string)
    ensures (a + (b + (" " + (c + (d + (e + (f + (g + h)))))))) + x
         == a + (b + (" " + (c + (d + (e + (f + (g + (h + x))))))))
  {
  }

  lemma FirstParts(x: string)
    ensures FIRST + x ==
      "\n\t\t\t" + ("deleted_at" + (" " + (['='] + (" " + ("EXCLUDED" + (['.'] + ("deleted_at" + ([','] + x))))))))
  {
    FirstIs();
    RegroupSet("\n\t\t\t", "deleted_at", ['='], " ", "EXCLUDED", ['.'], "deleted_at", [','], x);
  }

  lemma SecondParts()
    ensures SECOND == "\n\t\t\t" + ("raw" + (" " + (['='] + (" " + ("EXCLUDED" + (['.'] + ("raw" + "\n\t")))))))
  {
  }

  lemma TargetReads(x: string)
    ensures ReadTarget(KEY + x) == Some((["global_uid"], x))
  {
    Words();
    Blanks();
    KeyParts(x);
    var d := "global_uid" + (")" + x);
    var c := " " + (['('] + d);
    var b := " " + ("CONFLICT" + c);
    BlankEnds(['('] + d);
    BlankEnds("CONFLICT" + c);
    ReadsKeyword("\n\t\t", "ON", b);
    ReadsNext("CONFLICT", c);
    ReadsChar(" ", '(', d);
    WordIsEntry("global_uid");
    ReadsLastName("global_uid", x);
  }

  lemma UpdateReads(x: string)
    requires Ends(x)
    ensures ReadUpdate(UPDATE + x) == Some(x)
  {
    Words();
    UpdateParts(x);
    ReadsNext("SET", x);
    ReadsNext("UPDATE", " " + ("SET" + x));
    ReadsNext("DO", " " + ("UPDATE" + (" " + ("SET" + x))));
  }

  lemma ReadsFirstSet(b: string, n: string, m: string, x: string, more: seq<(string, string)>)
    requires Blank(b) && Word(n) && Word(m) && ReadSets(x) == Some(more)
    ensures ReadSets(b + (n + (" " + (['='] + (" " + ("EXCLUDED" + (['.'] + (m + ([','] + x))))))))) ==
            Some([(n, m)] + more)
  {
    EndsWith(',', x);
    ReadsSet(b, n, m, [','] + x);
    ReadsCharNow(',', x);
    assert ([','] + x)[1..] == x;
  }

  lemma ReadsLastSet(b: string, n: string, m: string, e: string)
    requires Blank(b) && Word(n) && Word(m) && Blank(e) && e != ""
    ensures ReadSets(b + (n + (" " + (['='] + (" " + ("EXCLUDED" + (['.'] + (m + e)))))))) == Some([(n, m)])
  {
    ReadsSet(b, n, m, e);
    SkipsBlanks(e, "");
    assert e + "" == e;
  }

  lemma ColumnWords()
    ensures Word("deleted_at") && Word("raw")
  {
  }

  lemma FirstReads(x: string, more: seq<(string, string)>)
    requires ReadSets(x) == Some(more)
    ensures ReadSets(FIRST + x) == Some([("deleted_at", "deleted_at")] + more)
  {
    ColumnWords();
    Blanks();
    FirstParts(x);
    ReadsFirstSet("\n\t\t\t", "deleted_at", "deleted_at", x, more);
  }

  lemma SecondReads(x: string)
    requires x == SECOND
    ensures ReadSets(x) == Some([("raw", "raw")])
  {
    ColumnWords();
    Blanks();
    SecondParts();
    ReadsLastSet("\n\t\t\t", "raw", "raw", "\n\t");
  }

  lemma SetsRead(x: string)
    requires x == SECOND
    ensures ReadSets(FIRST + x) == Some([("deleted_at", "deleted_at"), ("raw", "raw")])
  {
    var first, second := ("deleted_at", "deleted_at"), ("raw", "raw");
    SecondReads(x);
    FirstReads(x, [second]);
    TwoSets(first, second);
  }

  lemma TwoSets(a: (string, string), b: (string, string))
    ensures [a] + [b] == [a, b]
  {
  }

  lemma SetsEnd(x: string)
    ensures Ends(FIRST + x)
  {
    assert (FIRST + x)[0] == FIRST[0];
  }

  lemma ConflictReads(x: string)
    requires x == SECOND
    ensures ReadConflict(KEY + (UPDATE + (FIRST + x))) ==
      Some((["global_uid"], [("deleted_at", "deleted_at"), ("raw", "raw")]))
  {
    SetsRead(x);
    SetsEnd(x);
    TargetReads(UPDATE + (FIRST + x));
    UpdateReads(FIRST + x);
  }

  lemma NamesResolve()
    ensures Resolve(["global_uid"]) == Some([GlobalUid]) && Resolve(["deleted_at", "raw"]) == Some([DeletedAt, Raw])
  {
    ResolvesNames(["global_uid"], [GlobalUid]);
    ResolvesNames(["deleted_at", "raw"], [DeletedAt, Raw]);
  }

  lemma ClauseMeans(s: string, key: seq<string>, sets: seq<(string, string)>, to: seq<Column>, from: seq<Column>)
    requires ReadConflict(s) == Some((key, sets)) && Resolve(key) == Some([GlobalUid])
    requires Resolve(Targets(sets)) == Some(to) && Resolve(Sources(sets)) == Some(from)
    ensures |from| == |to| && ReadClause(s) == Assigning(to, from)
  {
  }

  lemma PairOfColumns()
    ensures
      var to := [DeletedAt, Raw];
      Assigning(to, to) == Some(REFRESHED)
  {
    var to := [DeletedAt, Raw];
    assert to[0] == DeletedAt && to[1] == Raw;
    assert (map c | c in to :: to[Index(to, c)]) == REFRESHED;
  }

  /** The clause that `sync` writes: on a conflict of global_uid, deleted_at and raw are set from the
      new row. */
  lemma ClauseReads(tail: string)
    requires tail == TAIL
    ensures ReadClause(tail) == Some(REFRESHED)
  {
    ConflictReads(SECOND);
    PairOfColumns();
    PairResolves();
    var sets := [("deleted_at", "deleted_at"), ("raw", "raw")];
    ClauseMeans(tail, ["global_uid"], sets, [DeletedAt, Raw], [DeletedAt, Raw]);
  }

  lemma PairParts(a: (string, string), b: (string, string))
    ensures Targets([a, b]) == [a.0, b.0] && Sources([a, b]) == [a.1, b.1]
  {
  }

  lemma PairResolves()
    ensures Resolve(["global_uid"]) == Some([GlobalUid])
    ensures
      var sets := [("deleted_at", "deleted_at"), ("raw", "raw")];
      Resolve(Targets(sets)) == Some([DeletedAt, Raw]) && Resolve(Sources(sets)) == Some([DeletedAt, Raw])
  {
    NamesResolve();
    PairParts(("deleted_at", "deleted_at"), ("raw", "raw"));
  }

  /** The statement names the table krateo_resources. */
  lemma HeadReads(x: string)
    ensures ReadInto(HEAD + x) == Some(("krateo_resources", x))
  {
    HeadParts(x);
    IntoReads(x);
  }
}
