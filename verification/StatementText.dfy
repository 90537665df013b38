/** The text of the multi-row INSERT that `Worker.sync` writes (internal/batch/worker.go), and a
    reader for its VALUES part that knows nothing of how it was written. */
module StatementText {
  import opened Jobs
  import opened Strings

  // Writing.

  function Digit(d: nat): char
    requires d < 10
  {
    (48 + d) as char
  }

  /** `%d` of a non-negative number. */
  function Decimal(n: nat): (s: string)
    ensures |s| > 0
    ensures forall i :: 0 <= i < |s| ==> IsDigit(s[i])
  {
    if n < 10 then [Digit(n)] else Decimal(n / 10) + [Digit(n % 10)]
  }

  predicate IsDigit(c: char) { 48 <= c as int <= 57 }

  function Param(p: nat): string { "$" + Decimal(p) }

  /** The parameters of one row, separated by ", ". */
  function Params(ps: seq<nat>): string {
    if ps == [] then "" else
    if |ps| == 1 then Param(ps[0])
    else Params(ps[..|ps| - 1]) + ", " + Param(ps[|ps| - 1])
  }

  function RowText(ps: seq<nat>): string { "(" + Params(ps) + ")" }

  /** The rows, separated by ", ". */
  function RowsText(rows: seq<seq<nat>>): string {
    if rows == [] then "" else
    if |rows| == 1 then RowText(rows[0])
    else RowsText(rows[..|rows| - 1]) + ", " + RowText(rows[|rows| - 1])
  }

  // Reading.

  /** Reads a number, most significant digit first, continuing from `acc`. */
  function ReadNumber(acc: nat, s: string): (r: (nat, string))
    ensures |r.1| <= |s|
    decreases |s|
  {
    if s != [] && IsDigit(s[0]) then ReadNumber(10 * acc + (s[0] as int - 48), s[1..]) else (acc, s)
  }

  predicate StartsWithSeparator(s: string) { |s| >= 2 && s[0] == ',' && s[1] == ' ' }

  /** Reads "$n" and then, after each ", ", another, up to the closing parenthesis. */
  function ReadParams(s: string): Option<(seq<nat>, string)>
    decreases |s|
  {
    if |s| < 2 || s[0] != '$' || !IsDigit(s[1]) then None else
    var (p, rest) := ReadNumber(0, s[1..]);
    if rest != [] && rest[0] == ')' then Some(([p], rest[1..])) else
    if !StartsWithSeparator(rest) then None else
    match ReadParams(rest[2..])
    case None => None
    case Some((ps, tail)) => Some(([p] + ps, tail))
  }

  function ReadRow(s: string): Option<(seq<nat>, string)> {
    if s == [] || s[0] != '(' then None else ReadParams(s[1..])
  }

  lemma {:induction false} ReadParamsShrinks(s: string)
    ensures ReadParams(s).Some? ==> |ReadParams(s).value.1| < |s|
    decreases |s|
  {
    if |s| >= 2 && s[0] == '$' && IsDigit(s[1]) {
      var (p, rest) := ReadNumber(0, s[1..]);
      if !(rest != [] && rest[0] == ')') && |rest| >= 2 { ReadParamsShrinks(rest[2..]); }
    }
  }

  /** Reads a row and then, after each ", ", another; what follows is left unread. */
  function ReadRows(s: string): Option<(seq<seq<nat>>, string)>
    decreases |s|
  {
    match ReadRow(s)
    case None => None
    case Some((ps, rest)) =>
      if !StartsWithSeparator(rest) then Some(([ps], rest)) else
      ReadParamsShrinks(s[1..]);
      match ReadRows(rest[2..])
      case None => None
      case Some((more, tail)) => Some(([ps] + more, tail))
  }

  // Reading undoes writing.

  lemma ReadDecimal(n: nat, tail: string)
    requires tail == [] || !IsDigit(tail[0])
    ensures ReadNumber(0, Decimal(n) + tail) == (n, tail)
  {
    ReadDigits(n, tail);
    assert ReadNumber(n, tail) == (n, tail);
  }

  lemma {:induction false} ReadDigits(n: nat, tail: string)
    ensures ReadNumber(0, Decimal(n) + tail) == ReadNumber(n, tail)
  {
    if n < 10 {
      var s := Decimal(n) + tail;
      assert s[0] == Digit(n) && s[1..] == tail;
    } else {
      var t := [Digit(n % 10)] + tail;
      assert Decimal(n) + tail == Decimal(n / 10) + t;
      ReadDigits(n / 10, t);
      assert t[0] == Digit(n % 10) && t[1..] == tail;
    }
  }

  lemma ReadParam(p: nat, tail: string)
    requires tail == [] || !IsDigit(tail[0])
    ensures
      var s := Param(p) + tail;
      |s| >= 2 && s[0] == '$' && IsDigit(s[1]) && ReadNumber(0, s[1..]) == (p, tail)
  {
    var s := Param(p) + tail;
    assert s[1..] == Decimal(p) + tail;
    assert s[1] == Decimal(p)[0];
    ReadDecimal(p, tail);
  }

  lemma {:induction false} ParamsFront(ps: seq<nat>)
    requires |ps| >= 2
    ensures Params(ps) == Param(ps[0]) + ", " + Params(ps[1..])
  {
    var n := |ps| - 1;
    if n > 1 {
      ParamsFront(ps[..n]);
      assert ps[..n][1..] == ps[1..][..n - 1];
      assert ps[1..][n - 1] == ps[n];
      RegroupMiddle(Param(ps[0]), ", ", Params(ps[1..][..n - 1]), ", ", Param(ps[n]));
    }
  }

  lemma ReadsLastParam(p: nat, tail: string)
    ensures ReadParams(Param(p) + (")" + tail)) == Some(([p], tail))
  {
    var t := ")" + tail;
    ReadParam(p, t);
    assert t[1..] == tail;
  }

  lemma ReadsFirstParam(p: nat, more: string, ps: seq<nat>, tail: string)
    requires ReadParams(more) == Some((ps, tail))
    ensures ReadParams(Param(p) + (", " + more)) == Some(([p] + ps, tail))
  {
    var t := ", " + more;
    ReadParam(p, t);
    assert t[2..] == more;
  }

  lemma {:induction false} ReadsParams(ps: seq<nat>, tail: string)
    requires ps != []
    ensures ReadParams(Params(ps) + (")" + tail)) == Some((ps, tail))
    decreases |ps|
  {
    if |ps| == 1 {
      ReadsLastParam(ps[0], tail);
      assert ps == [ps[0]];
    } else {
      ReadsParams(ps[1..], tail);
      ReadsFirstParam(ps[0], Params(ps[1..]) + (")" + tail), ps[1..], tail);
      ParamsFront(ps);
      RegroupTail(Param(ps[0]), ", ", Params(ps[1..]), ")" + tail);
      assert [ps[0]] + ps[1..] == ps;
    }
  }

  lemma ReadsRow(ps: seq<nat>, tail: string)
    requires ps != []
    ensures ReadRow(RowText(ps) + tail) == Some((ps, tail))
  {
    var s := RowText(ps) + tail;
    assert s[1..] == Params(ps) + (")" + tail);
    ReadsParams(ps, tail);
  }

  lemma {:induction false} RowsFront(rows: seq<seq<nat>>)
    requires |rows| >= 2
    ensures RowsText(rows) == RowText(rows[0]) + ", " + RowsText(rows[1..])
  {
    var n := |rows| - 1;
    if n > 1 {
      RowsFront(rows[..n]);
      assert rows[..n][1..] == rows[1..][..n - 1];
      assert rows[1..][n - 1] == rows[n];
      RegroupMiddle(RowText(rows[0]), ", ", RowsText(rows[1..][..n - 1]), ", ", RowText(rows[n]));
    }
  }

  lemma ReadsLastRow(ps: seq<nat>, tail: string)
    requires ps != [] && (tail == [] || tail[0] != ',')
    ensures ReadRows(RowText(ps) + tail) == Some(([ps], tail))
  {
    ReadsRow(ps, tail);
  }

  lemma ReadsFirstRow(ps: seq<nat>, more: string, rows: seq<seq<nat>>, tail: string)
    requires ps != [] && ReadRows(more) == Some((rows, tail))
    ensures ReadRows(RowText(ps) + (", " + more)) == Some(([ps] + rows, tail))
  {
    var t := ", " + more;
    ReadsRow(ps, t);
    assert t[2..] == more;
  }

  /** The VALUES text reads back as the parameter numbers that were written, row by row. */
  lemma {:induction false} ReadsRows(rows: seq<seq<nat>>, tail: string)
    requires rows != [] && (forall i :: 0 <= i < |rows| ==> rows[i] != [])
    requires tail == [] || tail[0] != ','
    ensures ReadRows(RowsText(rows) + tail) == Some((rows, tail))
    decreases |rows|
  {
    if |rows| == 1 {
      ReadsLastRow(rows[0], tail);
      assert rows == [rows[0]];
    } else {
      ReadsRows(rows[1..], tail);
      ReadsFirstRow(rows[0], RowsText(rows[1..]) + tail, rows[1..], tail);
      RowsFront(rows);
      RegroupTail(RowText(rows[0]), ", ", RowsText(rows[1..]), tail);
      assert [rows[0]] + rows[1..] == rows;
    }
  }
}
