/** The bracketed array parsers of `XCSFUtils.FileIO`, with the Java string
 *  operations they rely on (`trim`, `substring`, `split`, `replaceAll`)
 *  written out. `Double.parseDouble` and `Double.toString` are parameters:
 *  `parse` yields `None` where Java throws a NumberFormatException. */
module FileIO {
  import opened Wrappers

  type Parser = string -> Option<real>

  /** A character `String.trim` removes: code point at most U+0020. */
  predicate IsTrimmed(c: char) { c <= ' ' }

  /** A character the regular expression `\s` matches. */
  predicate IsWhitespace(c: char)
  {
    c == ' ' || c == '\t' || c == '\n' || c == '\U{B}' || c == '\U{C}' || c == '\r'
  }

  function TrimLeft(s: string): string
  {
    if |s| > 0 && IsTrimmed(s[0]) then TrimLeft(s[1..]) else s
  }

  function TrimRight(s: string): string
  {
    if |s| > 0 && IsTrimmed(s[|s| - 1]) then TrimRight(s[..|s| - 1]) else s
  }

  /** `String.trim`. */
  function Trim(s: string): string
  {
    TrimRight(TrimLeft(s))
  }

  lemma {:induction false} TrimUntouched(s: string)
    requires s != [] && !IsTrimmed(s[0]) && !IsTrimmed(s[|s| - 1])
    ensures Trim(s) == s
  {
  }

  lemma {:induction false} TrimLeadingSpace(s: string)
    requires s != [] && !IsTrimmed(s[0]) && !IsTrimmed(s[|s| - 1])
    ensures Trim(" " + s) == s
  {
    assert (" " + s)[1..] == s;
    assert TrimLeft(" " + s) == TrimLeft(s) == s;
  }

  /** `String.substring(begin, end)`. */
  function Substring(s: string, begin: int, end: int): (r: Result<string>)
    ensures r.Success? <==> 0 <= begin <= end <= |s|
    ensures r.Failure? ==> r.error == StringIndexOutOfBounds
    ensures r.Success? ==> r.value == s[begin..end]
  {
    if 0 <= begin <= end <= |s| then Success(s[begin..end]) else Failure(StringIndexOutOfBounds)
  }

  /** `parts[0] + sep + parts[1] + ... + sep + parts[n-1]`. */
  function Join(parts: seq<string>, sep: string): string
  {
    if |parts| == 0 then ""
    else if |parts| == 1 then parts[0]
    else parts[0] + sep + Join(parts[1..], sep)
  }

  /** The pieces between the occurrences of `d`, all of them kept. */
  function SplitAll(s: string, d: char): (r: seq<string>)
    ensures |r| >= 1
  {
    if |s| == 0 then [""]
    else
      var rest := SplitAll(s[1..], d);
      if s[0] == d then [""] + rest else [[s[0]] + rest[0]] + rest[1..]
  }

  /** Joining the pieces of a split at `d` with `d` restores the string. */
  lemma {:induction false} JoinSplitAll(s: string, d: char)
    ensures Join(SplitAll(s, d), [d]) == s
    ensures forall k :: 0 <= k < |SplitAll(s, d)| ==> d !in SplitAll(s, d)[k]
  {
    if |s| > 0 {
      var rest := SplitAll(s[1..], d);
      JoinSplitAll(s[1..], d);
      if s[0] == d {
        assert s == [d] + s[1..];
      } else if |rest| == 1 {
        assert s == [s[0]] + s[1..];
      } else {
        assert s == [s[0]] + s[1..];
        assert SplitAll(s, d)[1..] == rest[1..];
      }
    }
  }

  /** A string without `d` is a single piece. */
  lemma {:induction false} SplitAllNoDelimiter(a: string, d: char)
    requires d !in a
    ensures SplitAll(a, d) == [a]
  {
    if |a| > 0 {
      SplitAllNoDelimiter(a[1..], d);
      assert a == [a[0]] + a[1..];
    }
  }

  /** A piece without `d`, then `d`, then the rest. */
  lemma {:induction false} SplitAllCons(a: string, d: char, b: string)
    requires d !in a
    ensures SplitAll(a + [d] + b, d) == [a] + SplitAll(b, d)
  {
    if |a| == 0 {
      assert ([] + [d] + b)[1..] == b;
    } else {
      assert (a + [d] + b)[1..] == a[1..] + [d] + b;
      SplitAllCons(a[1..], d, b);
      assert [a[0]] + a[1..] == a;
    }
  }

  /** Splitting a join at a delimiter no part contains gives the parts. */
  lemma {:induction false} SplitAllJoin(parts: seq<string>, d: char)
    requires |parts| >= 1
    requires forall k :: 0 <= k < |parts| ==> d !in parts[k]
    ensures SplitAll(Join(parts, [d]), d) == parts
  {
    if |parts| == 1 {
      SplitAllNoDelimiter(parts[0], d);
    } else {
      SplitAllJoin(parts[1..], d);
      SplitAllCons(parts[0], d, Join(parts[1..], [d]));
      assert [parts[0]] + parts[1..] == parts;
    }
  }

  /** `split` undoes a join when no part holds the delimiter and the last
   *  part is not empty. */
  lemma {:induction false} JavaSplitJoin(parts: seq<string>, d: char)
    requires |parts| >= 1 && parts[|parts| - 1] != []
    requires forall k :: 0 <= k < |parts| ==> d !in parts[k]
    ensures JavaSplit(Join(parts, [d]), d) == parts
  {
    var s := Join(parts, [d]);
    SplitAllJoin(parts, d);
    if d !in s {
      SplitAllNoDelimiter(s, d);
    } else {
      var r := DropTrailingEmpty(parts);
      assert |r| == |parts|;
    }
  }

  function DropTrailingEmpty(ps: seq<string>): (r: seq<string>)
    ensures |r| <= |ps| && r == ps[..|r|]
    ensures r == [] || r[|r| - 1] != []
    ensures forall k :: |r| <= k < |ps| ==> ps[k] == []
  {
    if |ps| == 0 then ps
    else if ps[|ps| - 1] == [] then DropTrailingEmpty(ps[..|ps| - 1])
    else ps
  }

  /** `String.split` on a one-character expression with limit 0: the
   *  string itself when it holds no delimiter, otherwise the pieces with
   *  trailing empty ones removed. */
  function JavaSplit(s: string, d: char): (r: seq<string>)
    ensures d !in s ==> r == [s]
  {
    if d !in s then [s] else DropTrailingEmpty(SplitAll(s, d))
  }

  /** `replaceAll("\\s+", "")`. */
  function RemoveWhitespace(s: string): string
  {
    if |s| == 0 then ""
    else if IsWhitespace(s[0]) then RemoveWhitespace(s[1..])
    else [s[0]] + RemoveWhitespace(s[1..])
  }

  lemma {:induction false} RemoveWhitespaceConcat(a: string, b: string)
    ensures RemoveWhitespace(a + b) == RemoveWhitespace(a) + RemoveWhitespace(b)
  {
    if |a| > 0 {
      assert (a + b)[1..] == a[1..] + b;
      RemoveWhitespaceConcat(a[1..], b);
    } else {
      assert a + b == b;
    }
  }

  lemma {:induction false} RemoveWhitespaceNone(s: string)
    requires forall k :: 0 <= k < |s| ==> !IsWhitespace(s[k])
    ensures RemoveWhitespace(s) == s
  {
    if |s| > 0 {
      RemoveWhitespaceNone(s[1..]);
      assert [s[0]] + s[1..] == s;
    }
  }

  /** `replaceAll("\\],", "\\];")`: every `],` becomes `];`. */
  function ReplaceRowSeparator(s: string): string
  {
    if |s| >= 2 && s[0] == ']' && s[1] == ',' then "];" + ReplaceRowSeparator(s[2..])
    else if |s| == 0 then ""
    else [s[0]] + ReplaceRowSeparator(s[1..])
  }

  lemma {:induction false} ReplaceRowSeparatorPrefix(a: string, b: string)
    requires ']' !in a
    ensures ReplaceRowSeparator(a + b) == a + ReplaceRowSeparator(b)
  {
    if |a| == 0 {
      assert a + b == b;
    } else {
      assert (a + b)[1..] == a[1..] + b;
      ReplaceRowSeparatorPrefix(a[1..], b);
      assert [a[0]] + a[1..] == a;
    }
  }

  /** The conversions of `parseDoubleArray`'s loop,
   *  `arr[i] = Double.parseDouble(splited[i].trim())`, in loop order: the
   *  first field `parse` rejects ends the conversion. */
  function ParseFields(fields: seq<string>, parse: Parser): (r: Result<seq<real>>)
    ensures r.Success? ==> |r.value| == |fields|
    ensures r.Success? ==> forall k :: 0 <= k < |fields| ==> parse(Trim(fields[k])) == Some(r.value[k])
    ensures r.Failure? ==> r.error == NumberFormat
  {
    if |fields| == 0 then Success([])
    else
      var n := |fields| - 1;
      match ParseFields(fields[..n], parse)
      case Failure(e) => Failure(e)
      case Success(front) =>
        match parse(Trim(fields[n]))
        case None => Failure(NumberFormat)
        case Some(x) =>
          assert forall k :: 0 <= k < n ==> fields[k] == fields[..n][k];
          Success(front + [x])
  }

  /** A field `Double.parseDouble` rejects makes the whole array fail. */
  lemma {:induction false} ParseFieldsFailsAt(fields: seq<string>, i: int, parse: Parser)
    requires 0 <= i < |fields| && parse(Trim(fields[i])).None?
    ensures ParseFields(fields, parse) == Failure(NumberFormat)
  {
    var n := |fields| - 1;
    if i < n {
      assert fields[..n][i] == fields[i];
      ParseFieldsFailsAt(fields[..n], i, parse);
    }
  }

  /** `parse` accepting every field makes the array its results. */
  lemma {:induction false} ParseFieldsAll(fields: seq<string>, xs: seq<real>, parse: Parser)
    requires |fields| == |xs|
    requires forall k :: 0 <= k < |fields| ==> parse(Trim(fields[k])) == Some(xs[k])
    ensures ParseFields(fields, parse) == Success(xs)
  {
    if |fields| > 0 {
      var n := |fields| - 1;
      assert forall k :: 0 <= k < n ==> fields[..n][k] == fields[k];
      ParseFieldsAll(fields[..n], xs[..n], parse);
      assert xs[..n] + [xs[n]] == xs;
    }
  }

  /** What `parseDoubleArray` computes: trim, drop the first and the last
   *  character, split at commas, parse every trimmed field. */
  function DoubleArrayOf(s: string, parse: Parser): Result<seq<real>>
  {
    var t := Trim(s);
    match Substring(t, 1, |t| - 1)
    case Failure(e) => Failure(e)
    case Success(inner) => ParseFields(JavaSplit(inner, ','), parse)
  }

  /** `parseDoubleArray`. */
  method ParseDoubleArray(s: string, parse: Parser) returns (r: Result<seq<real>>)
    ensures r == DoubleArrayOf(s, parse)
  {
    var t := Trim(s);
    var inner := Substring(t, 1, |t| - 1);
    if inner.Failure? {
      return Failure(inner.error);
    }
    var splited := JavaSplit(inner.value, ',');
    var arr: seq<real> := [];
    for i := 0 to |splited|
      invariant ParseFields(splited[..i], parse) == Success(arr)
    {
      assert splited[..i + 1][..i] == splited[..i];
      var x := parse(Trim(splited[i]));
      if x.None? {
        ParseFieldsFailsAt(splited, i, parse);
        return Failure(NumberFormat);
      }
      arr := arr + [x.value];
    }
    assert splited[..|splited|] == splited;
    r := Success(arr);
  }

  /** What `parse2dDoubleArray` computes: strip white space, turn every `],`
   *  into `];`, drop the outer brackets, split at `;` and parse each row. */
  function DoubleMatrixOf(s: string, parse: Parser): Result<seq<seq<real>>>
  {
    var t := ReplaceRowSeparator(RemoveWhitespace(s));
    match Substring(t, 1, |t| - 1)
    case Failure(e) => Failure(e)
    case Success(inner) => ParseRows(JavaSplit(inner, ';'), parse)
  }

  /** Parses the rows in loop order; the first failing row decides the
   *  error. */
  function ParseRows(rows: seq<string>, parse: Parser): (r: Result<seq<seq<real>>>)
    ensures r.Success? ==> |r.value| == |rows|
  {
    if |rows| == 0 then Success([])
    else
      var n := |rows| - 1;
      match ParseRows(rows[..n], parse)
      case Failure(e) => Failure(e)
      case Success(front) =>
        match DoubleArrayOf(rows[n], parse)
        case Failure(e) => Failure(e)
        case Success(row) => Success(front + [row])
  }

  /** `parse2dDoubleArray`. */
  method Parse2dDoubleArray(s: string, parse: Parser) returns (r: Result<seq<seq<real>>>)
    ensures r == DoubleMatrixOf(s, parse)
  {
    var t := ReplaceRowSeparator(RemoveWhitespace(s));
    var inner := Substring(t, 1, |t| - 1);
    if inner.Failure? {
      return Failure(inner.error);
    }
    var splited := JavaSplit(inner.value, ';');
    var arr: seq<seq<real>> := [];
    for i := 0 to |splited|
      invariant ParseRows(splited[..i], parse) == Success(arr)
    {
      assert splited[..i + 1][..i] == splited[..i];
      var row := ParseDoubleArray(splited[i], parse);
      if row.Failure? {
        ParseRowsFailsAt(splited, i, parse);
        return Failure(row.error);
      }
      arr := arr + [row.value];
    }
    assert splited[..|splited|] == splited;
    r := Success(arr);
  }

  /** The first failing row decides the error. */
  lemma {:induction false} ParseRowsFailsAt(rows: seq<string>, i: int, parse: Parser)
    requires 0 <= i < |rows| && DoubleArrayOf(rows[i], parse).Failure?
    requires ParseRows(rows[..i], parse).Success?
    ensures ParseRows(rows, parse) == Failure(DoubleArrayOf(rows[i], parse).error)
  {
    var n := |rows| - 1;
    if i < n {
      assert rows[..n][..i] == rows[..i];
      assert rows[..n][i] == rows[i];
      ParseRowsFailsAt(rows[..n], i, parse);
      FrontFails(rows, parse);
    } else {
      assert rows[..n] == rows[..i];
      LastFails(rows, parse);
    }
  }

  /** A failure among the earlier rows is the failure of the whole. */
  lemma {:induction false} FrontFails(rows: seq<string>, parse: Parser)
    requires |rows| >= 1 && ParseRows(rows[..|rows| - 1], parse).Failure?
    ensures ParseRows(rows, parse) == ParseRows(rows[..|rows| - 1], parse)
  {
  }

  /** With the earlier rows parsed, a failing last row decides the error. */
  lemma {:induction false} LastFails(rows: seq<string>, parse: Parser)
    requires |rows| >= 1 && ParseRows(rows[..|rows| - 1], parse).Success?
    requires DoubleArrayOf(rows[|rows| - 1], parse).Failure?
    ensures ParseRows(rows, parse) == Failure(DoubleArrayOf(rows[|rows| - 1], parse).error)
  {
  }

  /** Every row parsing makes the matrix its rows. */
  lemma {:induction false} ParseRowsAll(rows: seq<string>, xss: seq<seq<real>>, parse: Parser)
    requires |rows| == |xss|
    requires forall k :: 0 <= k < |rows| ==> DoubleArrayOf(rows[k], parse) == Success(xss[k])
    ensures ParseRows(rows, parse) == Success(xss)
  {
    if |rows| > 0 {
      var n := |rows| - 1;
      PrefixParses(rows, xss, n, parse);
      ParseRowsAll(rows[..n], xss[..n], parse);
      LastParses(rows, xss[..n], xss[n], parse);
      assert xss[..n] + [xss[n]] == xss;
    }
  }

  /** Every row of a prefix parses when every row does. */
  lemma {:induction false} PrefixParses(rows: seq<string>, xss: seq<seq<real>>, n: int, parse: Parser)
    requires |rows| == |xss| && 0 <= n <= |rows|
    requires forall k :: 0 <= k < |rows| ==> DoubleArrayOf(rows[k], parse) == Success(xss[k])
    ensures forall k :: 0 <= k < n ==> DoubleArrayOf(rows[..n][k], parse) == Success(xss[..n][k])
  {
    forall k | 0 <= k < n
      ensures DoubleArrayOf(rows[..n][k], parse) == Success(xss[..n][k])
    {
      assert rows[..n][k] == rows[k];
    }
  }

  /** With the earlier rows parsed, a parsed last row is appended. */
  lemma {:induction false} LastParses(rows: seq<string>, front: seq<seq<real>>, row: seq<real>, parse: Parser)
    requires |rows| >= 1 && ParseRows(rows[..|rows| - 1], parse) == Success(front)
    requires DoubleArrayOf(rows[|rows| - 1], parse) == Success(row)
    ensures ParseRows(rows, parse) == Success(front + [row])
  {
  }

  /** What the parsers rely on of the string `Double.toString` prints for
   *  x: non-empty, without white space or control characters, without the
   *  separators `,` `;` `]`, and read back by `parse` as x. */
  predicate PrintsBack(show: real -> string, parse: Parser, x: real)
  {
    |show(x)| > 0 && parse(show(x)) == Some(x) &&
    forall k :: 0 <= k < |show(x)| ==> !IsTrimmed(show(x)[k]) && show(x)[k] !in ",;]"
  }

  /** Every element of an array prints back. */
  predicate AllPrintBack(show: real -> string, parse: Parser, xs: seq<real>)
  {
    forall k :: 0 <= k < |xs| ==> PrintsBack(show, parse, xs[k])
  }

  /** Every element of every row of a matrix prints back. */
  predicate RowsPrintBack(show: real -> string, parse: Parser, rows: seq<seq<real>>)
  {
    forall k :: 0 <= k < |rows| ==> AllPrintBack(show, parse, rows[k])
  }

  /** The facts about element i of a printed array, and its character j. */
  lemma {:induction false} PrintableChar(show: real -> string, parse: Parser, xs: seq<real>, i: int, j: int)
    requires AllPrintBack(show, parse, xs) && 0 <= i < |xs|
    ensures |show(xs[i])| > 0 && parse(show(xs[i])) == Some(xs[i])
    ensures 0 <= j < |show(xs[i])| ==> !IsTrimmed(show(xs[i])[j]) && show(xs[i])[j] !in ",;]"
  {
    assert PrintsBack(show, parse, xs[i]);
  }

  function Shows(xs: seq<real>, show: real -> string): (r: seq<string>)
    ensures |r| == |xs| && forall k :: 0 <= k < |xs| ==> r[k] == show(xs[k])
  {
    if |xs| == 0 then [] else [show(xs[0])] + Shows(xs[1..], show)
  }

  /** `Arrays.toString(double[])`. */
  function ArrayToString(xs: seq<real>, show: real -> string): string
  {
    "[" + Join(Shows(xs, show), ", ") + "]"
  }

  /** `Arrays.deepToString(double[][])`. */
  function MatrixToString(rows: seq<seq<real>>, show: real -> string): string
  {
    "[" + Join(RowStrings(rows, show), ", ") + "]"
  }

  function RowStrings(rows: seq<seq<real>>, show: real -> string): (r: seq<string>)
    ensures |r| == |rows| && forall k :: 0 <= k < |rows| ==> r[k] == ArrayToString(rows[k], show)
  {
    if |rows| == 0 then [] else [ArrayToString(rows[0], show)] + RowStrings(rows[1..], show)
  }

  /** The fields a split at `,` sees in `a, b, c`: every part after the first
   *  keeps its leading blank. */
  function Spaced(parts: seq<string>): (r: seq<string>)
    requires |parts| >= 1
    ensures |r| == |parts| && r[0] == parts[0]
    ensures forall k :: 1 <= k < |parts| ==> r[k] == " " + parts[k]
  {
    [parts[0]] + SpacedTail(parts)
  }

  function SpacedTail(parts: seq<string>): (r: seq<string>)
    requires |parts| >= 1
    ensures |r| == |parts| - 1 && forall k :: 0 <= k < |r| ==> r[k] == " " + parts[k + 1]
  {
    seq(|parts| - 1, k requires 0 <= k < |parts| - 1 => " " + parts[k + 1])
  }

  lemma {:induction false} JoinCommaSpace(parts: seq<string>)
    requires |parts| >= 1
    ensures Join(parts, ", ") == Join(Spaced(parts), ",")
  {
    if |parts| > 1 {
      var rest := parts[1..];
      var sp, sp1 := Spaced(parts), Spaced(rest);
      JoinCommaSpace(rest);
      assert sp[1..] == [" " + sp1[0]] + sp1[1..];
      JoinSpacedHead(sp1);
      JoinCons(sp, ",");
      JoinCons(parts, ", ");
      calc {
        Join(sp, ",");
        sp[0] + "," + Join(sp[1..], ",");
        parts[0] + "," + (" " + Join(sp1, ","));
        parts[0] + ", " + Join(rest, ", ");
      }
    }
  }

  /** A join of two or more parts: the first part, the separator, the join
   *  of the others. */
  lemma {:induction false} JoinCons(parts: seq<string>, sep: string)
    requires |parts| >= 2
    ensures Join(parts, sep) == parts[0] + sep + Join(parts[1..], sep)
  {
  }

  lemma {:induction false} JoinSpacedHead(ps: seq<string>)
    requires |ps| >= 1
    ensures Join([" " + ps[0]] + ps[1..], ",") == " " + Join(ps, ",")
  {
    var qs := [" " + ps[0]] + ps[1..];
    if |ps| > 1 {
      assert qs[1..] == ps[1..];
      var a, rest := ps[0], Join(ps[1..], ",");
      JoinCons(qs, ",");
      JoinCons(ps, ",");
      assert (" " + a) + "," + rest == " " + (a + "," + rest);
    } else {
      assert qs == [" " + ps[0]];
    }
  }

  /** The comma fields of a printed array are the printed elements, all
   *  but the first behind a blank. */
  lemma {:induction false} SplitPrinted(xs: seq<real>, show: real -> string, parse: Parser)
    requires AllPrintBack(show, parse, xs) && |xs| >= 1
    ensures JavaSplit(Join(Shows(xs, show), ", "), ',') == Spaced(Shows(xs, show))
  {
    var parts := Shows(xs, show);
    JoinCommaSpace(parts);
    var fields := Spaced(parts);
    ShowsNoChar(xs, show, parse);
    forall k | 0 <= k < |fields|
      ensures ',' !in fields[k]
    {
      assert ',' !in parts[k];
      if k > 0 {
        assert fields[k] == " " + parts[k];
      }
    }
    PrintableChar(show, parse, xs, |xs| - 1, 0);
    assert fields[|fields| - 1] != [];
    JavaSplitJoin(fields, ',');
  }

  /** Every field of a printed array, trimmed, parses back to its element. */
  lemma {:induction false} ParsePrintedFields(xs: seq<real>, show: real -> string, parse: Parser)
    requires AllPrintBack(show, parse, xs) && |xs| >= 1
    ensures forall k :: 0 <= k < |xs| ==> parse(Trim(Spaced(Shows(xs, show))[k])) == Some(xs[k])
  {
    var parts := Shows(xs, show);
    var fields := Spaced(parts);
    forall k | 0 <= k < |fields|
      ensures parse(Trim(fields[k])) == Some(xs[k])
    {
      var p := show(xs[k]);
      assert p == parts[k];
      PrintableChar(show, parse, xs, k, 0);
      PrintableChar(show, parse, xs, k, |p| - 1);
      if k == 0 {
        TrimUntouched(p);
      } else {
        TrimLeadingSpace(p);
      }
    }
  }

  /** `parseDoubleArray` inverts `Arrays.toString` on non-empty arrays. */
  lemma {:induction false} ParseArrayToString(xs: seq<real>, show: real -> string, parse: Parser)
    requires AllPrintBack(show, parse, xs) && |xs| >= 1
    ensures DoubleArrayOf(ArrayToString(xs, show), parse) == Success(xs)
  {
    var s := ArrayToString(xs, show);
    var inner := Join(Shows(xs, show), ", ");
    assert s == "[" + inner + "]";
    TrimUntouched(s);
    assert s[1..|s| - 1] == inner;
    SplitPrinted(xs, show, parse);
    ParsePrintedFields(xs, show, parse);
    ParseFieldsAll(Spaced(Shows(xs, show)), xs, parse);
  }

  /** White space removal distributes over a join. */
  lemma {:induction false} RemoveWhitespaceJoin(parts: seq<string>, sep: string)
    ensures RemoveWhitespace(Join(parts, sep)) == Join(RemoveWhitespaceAll(parts), RemoveWhitespace(sep))
  {
    if |parts| > 1 {
      RemoveWhitespaceJoin(parts[1..], sep);
      RemoveWhitespaceConcat(parts[0] + sep, Join(parts[1..], sep));
      RemoveWhitespaceConcat(parts[0], sep);
      assert RemoveWhitespaceAll(parts)[1..] == RemoveWhitespaceAll(parts[1..]);
    }
  }

  function RemoveWhitespaceAll(parts: seq<string>): (r: seq<string>)
    ensures |r| == |parts| && forall k :: 0 <= k < |parts| ==> r[k] == RemoveWhitespace(parts[k])
  {
    if |parts| == 0 then [] else [RemoveWhitespace(parts[0])] + RemoveWhitespaceAll(parts[1..])
  }

  /** A row of `deepToString` once white space is gone. */
  function CompactRow(row: seq<real>, show: real -> string): string
  {
    "[" + Join(Shows(row, show), ",") + "]"
  }

  function CompactRows(rows: seq<seq<real>>, show: real -> string): (r: seq<string>)
    ensures |r| == |rows| && forall k :: 0 <= k < |rows| ==> r[k] == CompactRow(rows[k], show)
  {
    if |rows| == 0 then [] else [CompactRow(rows[0], show)] + CompactRows(rows[1..], show)
  }

  /** Printed numbers hold no white space. */
  lemma {:induction false} PrintedNoWhitespace(xs: seq<real>, show: real -> string, parse: Parser)
    requires AllPrintBack(show, parse, xs)
    ensures RemoveWhitespaceAll(Shows(xs, show)) == Shows(xs, show)
  {
    forall k | 0 <= k < |xs|
      ensures RemoveWhitespace(show(xs[k])) == show(xs[k])
    {
      forall j | 0 <= j < |show(xs[k])|
        ensures !IsWhitespace(show(xs[k])[j])
      {
        PrintableChar(show, parse, xs, k, j);
      }
      RemoveWhitespaceNone(show(xs[k]));
    }
  }

  lemma {:induction false} CompactRowOf(row: seq<real>, show: real -> string, parse: Parser)
    requires AllPrintBack(show, parse, row)
    ensures RemoveWhitespace(ArrayToString(row, show)) == CompactRow(row, show)
  {
    var inner := Join(Shows(row, show), ", ");
    RemoveWhitespaceConcat("[" + inner, "]");
    RemoveWhitespaceConcat("[", inner);
    RemoveWhitespaceJoin(Shows(row, show), ", ");
    PrintedNoWhitespace(row, show, parse);
    assert RemoveWhitespace(", ") == ",";
    assert RemoveWhitespace("]") == "]";
    assert RemoveWhitespace("[") == "[";
  }

  lemma {:induction false} CompactRowsOf(rows: seq<seq<real>>, show: real -> string, parse: Parser)
    requires RowsPrintBack(show, parse, rows)
    ensures RemoveWhitespace(MatrixToString(rows, show)) == "[" + Join(CompactRows(rows, show), ",") + "]"
  {
    var inner := Join(RowStrings(rows, show), ", ");
    RemoveWhitespaceConcat("[" + inner, "]");
    RemoveWhitespaceConcat("[", inner);
    RemoveWhitespaceJoin(RowStrings(rows, show), ", ");
    forall k | 0 <= k < |rows|
      ensures RemoveWhitespaceAll(RowStrings(rows, show))[k] == CompactRows(rows, show)[k]
    {
      CompactRowOf(rows[k], show, parse);
    }
    assert RemoveWhitespaceAll(RowStrings(rows, show)) == CompactRows(rows, show);
    assert RemoveWhitespace(", ") == ",";
    assert RemoveWhitespace("]") == "]";
    assert RemoveWhitespace("[") == "[";
  }

  /** A compact row has no `]` before its last character. */
  lemma {:induction false} CompactRowShape(row: seq<real>, show: real -> string, parse: Parser)
    requires AllPrintBack(show, parse, row)
    ensures |CompactRow(row, show)| >= 2
    ensures CompactRow(row, show)[0] == '['
    ensures CompactRow(row, show)[|CompactRow(row, show)| - 1] == ']'
    ensures ']' !in CompactRow(row, show)[..|CompactRow(row, show)| - 1]
    ensures ';' !in CompactRow(row, show)
  {
    var parts := Shows(row, show);
    var inner := Join(parts, ",");
    var r := CompactRow(row, show);
    assert r == "[" + inner + "]";
    ShowsNoChar(row, show, parse);
    NoCharInJoin(parts, ",", ']');
    NoCharInJoin(parts, ",", ';');
    assert r[..|r| - 1] == "[" + inner;
  }

  /** A character in no part and not in the separator is not in the join. */
  lemma {:induction false} NoCharInJoin(parts: seq<string>, sep: string, c: char)
    requires c !in sep
    requires forall k :: 0 <= k < |parts| ==> c !in parts[k]
    ensures c !in Join(parts, sep)
  {
    if |parts| > 1 {
      NoCharInJoin(parts[1..], sep, c);
    }
  }

  /** Printed numbers hold neither `]` nor `;`. */
  lemma {:induction false} ShowsNoChar(xs: seq<real>, show: real -> string, parse: Parser)
    requires AllPrintBack(show, parse, xs)
    ensures forall k :: 0 <= k < |xs| ==> ']' !in show(xs[k]) && ';' !in show(xs[k]) && ',' !in show(xs[k])
  {
    forall k, j | 0 <= k < |xs| && 0 <= j < |show(xs[k])|
      ensures show(xs[k])[j] != ']' && show(xs[k])[j] != ';' && show(xs[k])[j] != ','
    {
      PrintableChar(show, parse, xs, k, j);
    }
  }

  /** `],` becomes `];` between the rows, and nothing else changes. */
  lemma {:induction false} ReplaceCompactRows(rows: seq<seq<real>>, show: real -> string, parse: Parser)
    requires RowsPrintBack(show, parse, rows) && |rows| >= 1
    ensures ReplaceRowSeparator(Join(CompactRows(rows, show), ",") + "]") == Join(CompactRows(rows, show), ";") + "]"
  {
    var rs := CompactRows(rows, show);
    var r := rs[0];
    CompactRowShape(rows[0], show, parse);
    var front := r[..|r| - 1];
    assert r == front + "]";
    if |rows| == 1 {
      assert Join(rs, ",") + "]" == front + "]]";
      ReplaceRowSeparatorPrefix(front, "]]");
    } else {
      ReplaceCompactRows(rows[1..], show, parse);
      assert CompactRows(rows[1..], show) == rs[1..];
      var rest, replaced := Join(rs[1..], ",") + "]", Join(rs[1..], ";") + "]";
      JoinCons(rs, ",");
      JoinCons(rs, ";");
      ReplaceRowSeparatorPrefix(front, "]," + rest);
      RowSeparatorStep(rest);
      Regroup(front, ",", Join(rs[1..], ","));
      Regroup(front, ";", Join(rs[1..], ";"));
      assert "]" + "," == "]," && "]" + ";" == "];";
      calc {
        ReplaceRowSeparator(Join(rs, ",") + "]");
        ReplaceRowSeparator(front + ("]," + rest));
        front + ("];" + replaced);
        Join(rs, ";") + "]";
      }
    }
  }

  /** Moving the closing bracket of a row over to the separator behind it. */
  lemma {:induction false} Regroup(front: string, sep: string, rest: string)
    ensures (front + "]") + sep + rest + "]" == front + ("]" + sep + (rest + "]"))
  {
  }

  /** One row separator `],` becomes `];`. */
  lemma {:induction false} RowSeparatorStep(s: string)
    ensures ReplaceRowSeparator("]," + s) == "];" + ReplaceRowSeparator(s)
  {
    assert ("]," + s)[2..] == s;
  }

  /** A compact row parses back to its numbers. */
  lemma {:induction false} ParseCompactRow(row: seq<real>, show: real -> string, parse: Parser)
    requires AllPrintBack(show, parse, row) && |row| >= 1
    ensures DoubleArrayOf(CompactRow(row, show), parse) == Success(row)
  {
    var parts := Shows(row, show);
    var inner := Join(parts, ",");
    var s := CompactRow(row, show);
    TrimUntouched(s);
    assert s[1..|s| - 1] == inner;
    ShowsNoChar(row, show, parse);
    SplitAllJoin(parts, ',');
    if ',' in inner {
      PrintableChar(show, parse, row, |row| - 1, 0);
    }
    assert JavaSplit(inner, ',') == parts;
    forall k | 0 <= k < |row|
      ensures parse(Trim(parts[k])) == Some(row[k])
    {
      PrintableChar(show, parse, row, k, 0);
      PrintableChar(show, parse, row, k, |show(row[k])| - 1);
      TrimUntouched(show(row[k]));
    }
    ParseFieldsAll(parts, row, parse);
  }

  /** `parse2dDoubleArray` inverts `Arrays.deepToString` on a non-empty
   *  matrix of non-empty rows. */
  lemma {:induction false} ParseMatrixToString(rows: seq<seq<real>>, show: real -> string, parse: Parser)
    requires RowsPrintBack(show, parse, rows) && |rows| >= 1
    requires forall k :: 0 <= k < |rows| ==> |rows[k]| >= 1
    ensures DoubleMatrixOf(MatrixToString(rows, show), parse) == Success(rows)
  {
    var rs := CompactRows(rows, show);
    MatrixInner(rows, show, parse);
    forall k | 0 <= k < |rs|
      ensures ';' !in rs[k]
    {
      CompactRowShape(rows[k], show, parse);
    }
    CompactRowShape(rows[|rows| - 1], show, parse);
    JavaSplitJoin(rs, ';');
    forall k | 0 <= k < |rs|
      ensures DoubleArrayOf(rs[k], parse) == Success(rows[k])
    {
      ParseCompactRow(rows[k], show, parse);
    }
    ParseRowsAll(rs, rows, parse);
  }

  /** Between the outer brackets of a printed matrix, once white space is
   *  gone and the row separators are replaced, lie the compact rows
   *  joined by `;`. */
  lemma {:induction false} MatrixInner(rows: seq<seq<real>>, show: real -> string, parse: Parser)
    requires RowsPrintBack(show, parse, rows) && |rows| >= 1
    requires forall k :: 0 <= k < |rows| ==> |rows[k]| >= 1
    ensures var t := ReplaceRowSeparator(RemoveWhitespace(MatrixToString(rows, show)));
      Substring(t, 1, |t| - 1) == Success(Join(CompactRows(rows, show), ";"))
  {
    var rs := CompactRows(rows, show);
    CompactRowsOf(rows, show, parse);
    ReplaceRowSeparatorPrefix("[", Join(rs, ",") + "]");
    ReplaceCompactRows(rows, show, parse);
    var t := "[" + Join(rs, ";") + "]";
    assert "[" + Join(rs, ",") + "]" == "[" + (Join(rs, ",") + "]");
    assert t == "[" + (Join(rs, ";") + "]");
    assert ReplaceRowSeparator(RemoveWhitespace(MatrixToString(rows, show))) == t;
    assert t[1..|t| - 1] == Join(rs, ";");
  }

  /** A printer for the two numbers 1.0 and 2.5, in `Double.toString`'s form. */
  function SampleShow(x: real): string
  {
    if x == 2.5 then "2.5" else "1.0"
  }

  /** The parser that reads `SampleShow`'s strings back. */
  function SampleParse(s: string): Option<real>
  {
    if s == "1.0" then Some(1.0) else if s == "2.5" then Some(2.5) else None
  }

  /** Both numbers `SampleShow` knows print back. */
  lemma {:induction false} SamplePrintsBack(x: real)
    requires x == 1.0 || x == 2.5
    ensures PrintsBack(SampleShow, SampleParse, x)
  {
    var p := SampleShow(x);
    assert p == "1.0" || p == "2.5";
    assert SampleParse(p) == Some(x);
    forall k | 0 <= k < |p|
      ensures !IsTrimmed(p[k]) && p[k] !in ",;]"
    {
      assert p[k] in "0125.";
    }
  }

  /** The requirement of `ParseArrayToString` can be met: with `SampleShow`
   *  and `SampleParse` the array [1.0, 2.5] prints back, and the round trip
   *  holds. */
  lemma {:induction false} ArrayRoundTripReachable()
    ensures AllPrintBack(SampleShow, SampleParse, [1.0, 2.5])
    ensures DoubleArrayOf(ArrayToString([1.0, 2.5], SampleShow), SampleParse) == Success([1.0, 2.5])
  {
    var xs := [1.0, 2.5];
    SamplePrintsBack(xs[0]);
    SamplePrintsBack(xs[1]);
    ParseArrayToString(xs, SampleShow, SampleParse);
  }

  /** The requirements of `ParseMatrixToString` can be met: with
   *  `SampleShow` and `SampleParse` the matrix [[1.0], [2.5, 1.0]] prints
   *  back, and the round trip holds. */
  lemma {:induction false} MatrixRoundTripReachable()
    ensures RowsPrintBack(SampleShow, SampleParse, [[1.0], [2.5, 1.0]])
    ensures DoubleMatrixOf(MatrixToString([[1.0], [2.5, 1.0]], SampleShow), SampleParse) == Success([[1.0], [2.5, 1.0]])
  {
    var rows := [[1.0], [2.5, 1.0]];
    SamplePrintsBack(1.0);
    SamplePrintsBack(2.5);
    assert AllPrintBack(SampleShow, SampleParse, rows[0]);
    assert AllPrintBack(SampleShow, SampleParse, rows[1]);
    ParseMatrixToString(rows, SampleShow, SampleParse);
  }

  /** `"[]"` has one empty field, which `Double.parseDouble` rejects. */
  lemma {:induction false} EmptyArrayRejected(parse: Parser)
    requires parse("").None?
    ensures DoubleArrayOf("[]", parse) == Failure(NumberFormat)
  {
    assert Trim("[]") == "[]";
    assert JavaSplit("", ',') == [""];
    assert ParseFields([""], parse).Failure?;
  }

  /** A string shorter than two characters after trimming is rejected by
   *  `substring`. */
  lemma {:induction false} ShortInputRejected(s: string, parse: Parser)
    requires |Trim(s)| < 2
    ensures DoubleArrayOf(s, parse) == Failure(StringIndexOutOfBounds)
  {
  }
}
