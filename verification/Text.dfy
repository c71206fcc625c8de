/** The text helpers of the script interpreter: the pipe tokenizer, the
    space-only trim, the digit check and the hand-written conversions between
    strings and integers. Each helper is a loop in the interpreter; here each
    is a method proved against a specification function, and the functions
    carry the round-trip lemmas. */
module Text {

  /** Bounds of a Java `int`. */
  const MaxInt: int := 0x7fff_ffff
  const MinInt: int := -0x8000_0000

  // ---------------------------------------------------------------------------
  // trimSimple
  // ---------------------------------------------------------------------------

  /** `s` without its leading ' ' characters. */
  function DropLeadingSpaces(s: string): string
  {
    if |s| > 0 && s[0] == ' ' then DropLeadingSpaces(s[1..]) else s
  }

  /** `s` without its trailing ' ' characters. */
  function DropTrailingSpaces(s: string): string
  {
    if |s| > 0 && s[|s| - 1] == ' ' then DropTrailingSpaces(s[..|s| - 1]) else s
  }

  /** Leading and trailing ' ' removed; tabs and inner spaces are kept. */
  function Trim(s: string): string
  {
    DropTrailingSpaces(DropLeadingSpaces(s))
  }

  /** Dropping leading spaces keeps a suffix that does not start with a space
      and drops only spaces. */
  lemma {:induction false} DropLeadingShape(s: string)
    ensures var r := DropLeadingSpaces(s);
      && |r| <= |s| && r == s[|s| - |r|..]
      && (r == [] || r[0] != ' ')
      && forall k :: 0 <= k < |s| - |r| ==> s[k] == ' '
    decreases |s|
  {
    if |s| > 0 && s[0] == ' ' {
      DropLeadingShape(s[1..]);
    }
  }

  /** Dropping trailing spaces keeps a prefix that does not end with a space
      and drops only spaces. */
  lemma {:induction false} DropTrailingShape(s: string)
    ensures var r := DropTrailingSpaces(s);
      && |r| <= |s| && r == s[..|r|]
      && (r == [] || r[|r| - 1] != ' ')
      && forall k :: |r| <= k < |s| ==> s[k] == ' '
    decreases |s|
  {
    if |s| > 0 && s[|s| - 1] == ' ' {
      DropTrailingShape(s[..|s| - 1]);
    }
  }

  /** The trim of `s` is the unique slice `s[i..j]` that is cut out by runs of
      spaces and that neither starts nor ends with a space. */
  lemma TrimSlice(s: string, i: int, j: int)
    requires 0 <= i <= j <= |s|
    requires forall k :: 0 <= k < i ==> s[k] == ' '
    requires forall k :: j <= k < |s| ==> s[k] == ' '
    requires i == j ==> i == |s|
    requires i < j ==> s[i] != ' ' && s[j - 1] != ' '
    ensures Trim(s) == s[i..j]
  {
    var d := DropLeadingSpaces(s);
    DropLeadingShape(s);
    assert |s| - |d| == i by {
      assert i < |s| ==> s[i] != ' ';
      assert |d| > 0 ==> d[0] == s[|s| - |d|];
    }
    var e := DropTrailingSpaces(d);
    DropTrailingShape(d);
    assert |e| == j - i by {
      assert j > i ==> d[j - i - 1] == s[j - 1];
      assert |e| > 0 ==> e[|e| - 1] == s[i + |e| - 1];
    }
  }

  /** The result of `Trim` is a slice of its input with no space at either
      end. */
  lemma TrimShape(s: string)
    ensures |Trim(s)| <= |DropLeadingSpaces(s)| <= |s|
    ensures Trim(s) == [] || (Trim(s)[0] != ' ' && Trim(s)[|Trim(s)| - 1] != ' ')
    ensures var i := |s| - |DropLeadingSpaces(s)|; Trim(s) == s[i..i + |Trim(s)|]
  {
    var d := DropLeadingSpaces(s);
    DropLeadingShape(s);
    var e := DropTrailingSpaces(d);
    DropTrailingShape(d);
    var i := |s| - |d|;
    assert e == s[i..i + |e|];
    if e != [] {
      assert e[0] == d[0];
    }
  }

  /** Trimming twice is trimming once. */
  lemma TrimIdempotent(s: string)
    ensures Trim(Trim(s)) == Trim(s)
  {
    var t := Trim(s);
    TrimShape(s);
    TrimSlice(t, 0, |t|);
  }

  /** A string with no space at either end is its own trim. */
  lemma TrimNoEdgeSpaces(s: string)
    requires s == [] || (s[0] != ' ' && s[|s| - 1] != ' ')
    ensures Trim(s) == s
  {
    TrimSlice(s, 0, |s|);
  }

  /** trimSimple: two index scans, then the kept characters copied one by one. */
  method TrimSimple(text: string) returns (r: string)
    ensures r == Trim(text)
  {
    var startIndex := 0;
    var endIndex := |text| - 1;
    while startIndex <= endIndex && text[startIndex] == ' '
      invariant 0 <= startIndex <= |text|
      invariant endIndex == |text| - 1
      invariant forall k :: 0 <= k < startIndex ==> text[k] == ' '
    {
      startIndex := startIndex + 1;
    }
    while endIndex >= startIndex && text[endIndex] == ' '
      invariant startIndex - 1 <= endIndex <= |text| - 1
      invariant forall k :: endIndex < k < |text| ==> text[k] == ' '
      invariant startIndex < |text| && text[startIndex] != ' ' ==> startIndex <= endIndex
    {
      endIndex := endIndex - 1;
    }
    if endIndex < startIndex {
      TrimSlice(text, |text|, |text|);
      return "";
    }
    var resultString := "";
    var charIndex := startIndex;
    while charIndex <= endIndex
      invariant startIndex <= charIndex <= endIndex + 1
      invariant resultString == text[startIndex..charIndex]
    {
      resultString := resultString + [text[charIndex]];
      charIndex := charIndex + 1;
    }
    TrimSlice(text, startIndex, endIndex + 1);
    r := resultString;
  }

  // ---------------------------------------------------------------------------
  // splitByPipe
  // ---------------------------------------------------------------------------

  /** The number of '|' characters in `s`. */
  function PipeCount(s: string): nat
  {
    if s == [] then 0 else PipeCount(s[..|s| - 1]) + (if s[|s| - 1] == '|' then 1 else 0)
  }

  /** The untrimmed texts between consecutive '|' characters, left to right,
      built one character at a time as the splitter reads them. */
  function Pieces(s: string): (r: seq<string>)
    ensures |r| == PipeCount(s) + 1
  {
    if s == [] then [""]
    else
      var prev := Pieces(s[..|s| - 1]);
      var c := s[|s| - 1];
      if c == '|' then prev + [""]
      else prev[..|prev| - 1] + [prev[|prev| - 1] + [c]]
  }

  /** Every string of `ps` trimmed. */
  function TrimAll(ps: seq<string>): (r: seq<string>)
    ensures |r| == |ps|
    ensures forall i :: 0 <= i < |r| ==> r[i] == Trim(ps[i])
  {
    if ps == [] then [] else TrimAll(ps[..|ps| - 1]) + [Trim(ps[|ps| - 1])]
  }

  lemma TrimAllSnoc(ps: seq<string>, x: string)
    ensures TrimAll(ps + [x]) == TrimAll(ps) + [Trim(x)]
  {
    assert (ps + [x])[..|ps|] == ps;
  }

  /** The fields of a command line: each piece trimmed. */
  function SplitFields(s: string): (r: seq<string>)
    ensures |r| == PipeCount(s) + 1
  {
    TrimAll(Pieces(s))
  }

  /** Fields glued back together with '|' between them. */
  function JoinPipe(fields: seq<string>): string
    requires |fields| >= 1
  {
    if |fields| == 1 then fields[0] else fields[0] + "|" + JoinPipe(fields[1..])
  }

  lemma {:induction false} PipeCountPrefix(s: string, k: nat)
    requires k <= |s|
    ensures PipeCount(s[..k]) <= PipeCount(s)
    decreases |s|
  {
    if k < |s| {
      assert s[..|s| - 1][..k] == s[..k];
      PipeCountPrefix(s[..|s| - 1], k);
    } else {
      assert s[..k] == s;
    }
  }

  lemma {:induction false} JoinPipeSnoc(fields: seq<string>, x: string)
    requires |fields| >= 1
    ensures JoinPipe(fields + [x]) == JoinPipe(fields) + "|" + x
    decreases |fields|
  {
    if |fields| > 1 {
      assert (fields + [x])[1..] == fields[1..] + [x];
      JoinPipeSnoc(fields[1..], x);
    }
  }

  /** Growing the last field grows the joined line at its end. */
  lemma JoinPipeGrowLast(init: seq<string>, last: string, c: char)
    ensures JoinPipe(init + [last + [c]]) == JoinPipe(init + [last]) + [c]
  {
    if init == [] {
      assert init + [last + [c]] == [last + [c]];
      assert init + [last] == [last];
    } else {
      JoinPipeSnoc(init, last);
      JoinPipeSnoc(init, last + [c]);
      var j := JoinPipe(init);
      assert j + "|" + (last + [c]) == (j + "|" + last) + [c];
    }
  }

  /** Splitting and then joining with '|' gives back the input. */
  lemma {:induction false} JoinPieces(s: string)
    ensures JoinPipe(Pieces(s)) == s
    decreases |s|
  {
    if s != [] {
      var init := s[..|s| - 1];
      var c := s[|s| - 1];
      assert init + [c] == s;
      JoinPieces(init);
      PiecesSnoc(init, c);
      if c == '|' {
        JoinPipeSnoc(Pieces(init), "");
      } else {
        var p := Pieces(init);
        var k := |p| - 1;
        assert p[..k] + [p[k]] == p;
        JoinPipeGrowLast(p[..k], p[k], c);
      }
    }
  }

  lemma {:induction false} PiecesOfPlain(f: string)
    requires '|' !in f
    ensures Pieces(f) == [f]
    decreases |f|
  {
    if f != [] {
      assert f[|f| - 1] in f;
      PiecesOfPlain(f[..|f| - 1]);
      assert f[..|f| - 1] + [f[|f| - 1]] == f;
    }
  }

  /** Reading one more character: a '|' opens a new piece, any other
      character grows the last one. */
  lemma PiecesSnoc(x: string, c: char)
    ensures var p := Pieces(x);
            Pieces(x + [c]) == if c == '|' then p + [""] else p[..|p| - 1] + [p[|p| - 1] + [c]]
  {
    assert (x + [c])[..|x|] == x;
  }

  /** No piece holds a '|': the splitter closes a piece at every '|'. */
  lemma {:induction false} PiecesPipeFree(s: string)
    ensures forall i :: 0 <= i < |Pieces(s)| ==> '|' !in Pieces(s)[i]
    decreases |s|
  {
    if s != [] {
      var x := s[..|s| - 1];
      var c := s[|s| - 1];
      assert x + [c] == s;
      PiecesPipeFree(x);
      PiecesSnoc(x, c);
      var p := Pieces(x);
      if c != '|' {
        assert '|' !in p[|p| - 1] + [c];
      }
    }
  }

  /** Trimming keeps a slice, so it adds no '|'. */
  lemma TrimPipeFree(s: string)
    requires '|' !in s
    ensures '|' !in Trim(s)
  {
    TrimShape(s);
    var t := Trim(s);
    var i := |s| - |DropLeadingSpaces(s)|;
    forall k | 0 <= k < |t|
      ensures t[k] != '|'
    {
      assert t[k] == s[i + k];
    }
  }

  /** Every field the splitter yields is pipe-free and already trimmed. */
  lemma SplitFieldsPlain(s: string)
    ensures forall i :: 0 <= i < |SplitFields(s)| ==>
      '|' !in SplitFields(s)[i] && Trim(SplitFields(s)[i]) == SplitFields(s)[i]
  {
    var r := SplitFields(s);
    PiecesPipeFree(s);
    forall i | 0 <= i < |r|
      ensures '|' !in r[i] && Trim(r[i]) == r[i]
    {
      TrimPipeFree(Pieces(s)[i]);
      TrimIdempotent(Pieces(s)[i]);
    }
  }

  /** Growing the last piece commutes with a prefix of earlier pieces. */
  lemma GrowLast(a: seq<string>, q: seq<string>, c: char)
    requires |q| >= 1
    ensures var p := a + q;
            p[..|p| - 1] + [p[|p| - 1] + [c]] == a + (q[..|q| - 1] + [q[|q| - 1] + [c]])
  {
  }

  lemma {:induction false} PiecesAtPipe(s: string, t: string)
    ensures Pieces(s + "|" + t) == Pieces(s) + Pieces(t)
    decreases |t|
  {
    if t == [] {
      assert s + "|" + t == s + "|";
      PiecesSnoc(s, '|');
    } else {
      var t' := t[..|t| - 1];
      var c := t[|t| - 1];
      var u := s + "|" + t';
      assert s + "|" + t == u + [c];
      assert t' + [c] == t;
      PiecesAtPipe(s, t');
      var p := Pieces(s);
      var q := Pieces(t');
      assert Pieces(u) == p + q;
      PiecesSnoc(u, c);
      PiecesSnoc(t', c);
      if c == '|' {
        assert Pieces(u + [c]) == (p + q) + [""];
        assert Pieces(t) == q + [""];
        assert (p + q) + [""] == p + (q + [""]);
      } else {
        GrowLast(p, q, c);
        var pq := p + q;
        assert Pieces(u + [c]) == pq[..|pq| - 1] + [pq[|pq| - 1] + [c]];
        assert Pieces(t) == q[..|q| - 1] + [q[|q| - 1] + [c]];
      }
    }
  }

  /** Joining pipe-free fields and splitting again gives back the fields. */
  lemma {:induction false} PiecesJoin(fields: seq<string>)
    requires |fields| >= 1
    requires forall i :: 0 <= i < |fields| ==> '|' !in fields[i]
    ensures Pieces(JoinPipe(fields)) == fields
    decreases |fields|
  {
    PiecesOfPlain(fields[0]);
    if |fields| > 1 {
      PiecesJoin(fields[1..]);
      PiecesAtPipe(fields[0], JoinPipe(fields[1..]));
      assert [fields[0]] + fields[1..] == fields;
    }
  }

  /** A field list whose fields are already trimmed and pipe-free survives a
      join followed by a split unchanged. */
  lemma SplitJoin(fields: seq<string>)
    requires |fields| >= 1
    requires forall i :: 0 <= i < |fields| ==> '|' !in fields[i] && Trim(fields[i]) == fields[i]
    ensures SplitFields(JoinPipe(fields)) == fields
  {
    PiecesJoin(fields);
  }

  /** Reading one more character of `s` extends the pieces of the prefix:
      a '|' opens a new piece, any other character grows the last one. */
  lemma PiecesStep(s: string, k: nat)
    requires k < |s|
    ensures PipeCount(s[..k + 1]) == PipeCount(s[..k]) + (if s[k] == '|' then 1 else 0)
    ensures var p := Pieces(s[..k]);
            Pieces(s[..k + 1]) == if s[k] == '|' then p + [""] else p[..|p| - 1] + [p[|p| - 1] + [s[k]]]
  {
    assert s[..k + 1][..k] == s[..k];
  }

  /** What the splitter's loop needs about reading character `k`: the new
      pieces, the bound on the piece index, and the trimmed pieces closed so
      far. */
  lemma SplitStep(s: string, k: nat, pieces: seq<string>, partIndex: nat)
    requires k < |s| && pieces == Pieces(s[..k]) && |pieces| == partIndex + 1
    ensures partIndex + (if s[k] == '|' then 1 else 0) <= PipeCount(s)
    ensures s[k] == '|' ==>
      && Pieces(s[..k + 1]) == pieces + [""]
      && (pieces + [""])[..partIndex + 1] == pieces
      && TrimAll(pieces) == TrimAll(pieces[..partIndex]) + [Trim(pieces[partIndex])]
    ensures s[k] != '|' ==>
      var grown := pieces[..partIndex] + [pieces[partIndex] + [s[k]]];
      Pieces(s[..k + 1]) == grown && grown[..partIndex] == pieces[..partIndex]
  {
    PiecesStep(s, k);
    PipeCountPrefix(s, k + 1);
    assert pieces[..partIndex] + [pieces[partIndex]] == pieces;
    TrimAllSnoc(pieces[..partIndex], pieces[partIndex]);
  }

  /** The first pass of splitByPipe: one more field than there are pipes. */
  method CountFields(inputString: string) returns (pipeCount: nat)
    ensures pipeCount == PipeCount(inputString) + 1
  {
    pipeCount := 1;
    var charIndex := 0;
    while charIndex < |inputString|
      invariant 0 <= charIndex <= |inputString|
      invariant pipeCount == PipeCount(inputString[..charIndex]) + 1
    {
      assert inputString[..charIndex + 1][..charIndex] == inputString[..charIndex];
      if inputString[charIndex] == '|' {
        pipeCount := pipeCount + 1;
      }
      charIndex := charIndex + 1;
    }
    assert inputString[..|inputString|] == inputString;
  }

  /** The cutting pass of splitByPipe: every piece but the last is trimmed
      into the array at its position; the last one is returned untrimmed. */
  method FillFields(inputString: string, buffer: array<string>) returns (currentToken: string)
    requires buffer.Length == PipeCount(inputString) + 1
    modifies buffer
    ensures var p := Pieces(inputString);
      && buffer[..|p| - 1] == TrimAll(p[..|p| - 1]) && currentToken == p[|p| - 1]
  {
    currentToken := "";
    var partIndex := 0;
    ghost var pieces := [""];
    var charIndex := 0;
    while charIndex < |inputString|
      invariant 0 <= charIndex <= |inputString|
      invariant pieces == Pieces(inputString[..charIndex])
      invariant |pieces| == partIndex + 1 && pieces[partIndex] == currentToken
      invariant partIndex < buffer.Length
      invariant buffer[..partIndex] == TrimAll(pieces[..partIndex])
    {
      var currentChar := inputString[charIndex];
      SplitStep(inputString, charIndex, pieces, partIndex);
      if currentChar == '|' {
        var trimmed := TrimSimple(currentToken);
        buffer[partIndex] := trimmed;
        assert buffer[..partIndex + 1] == buffer[..partIndex] + [trimmed];
        partIndex := partIndex + 1;
        currentToken := "";
        pieces := pieces + [""];
      } else {
        currentToken := currentToken + [currentChar];
        pieces := pieces[..partIndex] + [currentToken];
      }
      charIndex := charIndex + 1;
    }
    assert inputString[..charIndex] == inputString;
  }

  /** splitByPipe: count the pipes to size the array, then cut and trim. */
  method SplitByPipe(inputString: string) returns (parts: seq<string>)
    ensures parts == SplitFields(inputString)
    ensures |parts| == PipeCount(inputString) + 1
  {
    var pipeCount := CountFields(inputString);
    var buffer := new string[pipeCount];
    var currentToken := FillFields(inputString, buffer);
    ghost var p := Pieces(inputString);
    var partIndex := pipeCount - 1;
    var trimmed := TrimSimple(currentToken);
    assert p[..partIndex] + [currentToken] == p;
    TrimAllSnoc(p[..partIndex], currentToken);
    buffer[partIndex] := trimmed;
    assert buffer[..] == buffer[..partIndex] + [trimmed];
    parts := buffer[..];
  }

  // ---------------------------------------------------------------------------
  // isInteger, stringToInt, integerToString
  // ---------------------------------------------------------------------------

  /** A non-empty string of ASCII digits: no sign, no spaces. */
  predicate IsDigits(s: string)
  {
    |s| > 0 && forall i :: 0 <= i < |s| ==> '0' <= s[i] <= '9'
  }

  /** isInteger: scan the characters, stop at the first non-digit. */
  method IsInteger(inputString: string) returns (b: bool)
    ensures b <==> IsDigits(inputString)
  {
    if |inputString| == 0 {
      return false;
    }
    var index := 0;
    while index < |inputString|
      invariant 0 <= index <= |inputString|
      invariant forall i :: 0 <= i < index ==> '0' <= inputString[i] <= '9'
    {
      var character := inputString[index];
      if character < '0' || character > '9' {
        return false;
      }
      index := index + 1;
    }
    return true;
  }

  /** The value the conversion gives a character: its distance from '0'. */
  function DigitValue(c: char): int
  {
    c as int - '0' as int
  }

  /** The value `stringToInt` computes, read left to right, without the
      32-bit wrap-around. */
  function DecimalValue(s: string): (n: int)
    ensures (forall i :: 0 <= i < |s| ==> '0' <= s[i] <= '9') ==> n >= 0
  {
    if s == [] then 0 else DecimalValue(s[..|s| - 1]) * 10 + DigitValue(s[|s| - 1])
  }

  /** stringToInt: accumulate `number * 10 + (c - '0')`, in unbounded
      integers. */
  method StringToInt(text: string) returns (number: int)
    ensures number == DecimalValue(text)
    ensures IsDigits(text) ==> number >= 0
    ensures IsDigits(text) && (text[0] != '0' || text == "0") ==> DecimalString(number) == text
  {
    number := 0;
    var index := 0;
    while index < |text|
      invariant 0 <= index <= |text|
      invariant number == DecimalValue(text[..index])
    {
      assert text[..index + 1][..index] == text[..index];
      var character := text[index];
      number := number * 10 + DigitValue(character);
      index := index + 1;
    }
    assert text[..|text|] == text;
    if IsDigits(text) && (text[0] != '0' || text == "0") {
      CanonicalDigitsRoundTrip(text);
    }
  }

  function DigitChar(d: int): char
    requires 0 <= d <= 9
  {
    ('0' as int + d) as char
  }

  /** The decimal digits of `n`, most significant first; empty for 0. */
  function Digits(n: nat): string
  {
    if n == 0 then "" else Digits(n / 10) + [DigitChar(n % 10)]
  }

  /** What `integerToString` produces: "0" for every value up to 0. */
  function DecimalString(n: int): string
  {
    if n <= 0 then "0" else Digits(n)
  }

  /** integerToString: peel off the last digit until the value is 0. */
  method IntegerToString(value: int) returns (resultString: string)
    ensures resultString == DecimalString(value)
  {
    if value <= 0 {
      return "0";
    }
    var rest := value;
    resultString := "";
    while rest > 0
      invariant 0 <= rest
      invariant Digits(rest) + resultString == Digits(value)
    {
      var digit := rest % 10;
      var charDigit := DigitChar(digit);
      assert Digits(rest) == Digits(rest / 10) + [charDigit];
      assert Digits(rest / 10) + ([charDigit] + resultString) == Digits(rest) + resultString;
      resultString := [charDigit] + resultString;
      rest := rest / 10;
    }
    assert Digits(0) + resultString == resultString;
  }

  lemma {:induction false} DigitsRoundTrip(n: nat)
    ensures forall i :: 0 <= i < |Digits(n)| ==> '0' <= Digits(n)[i] <= '9'
    ensures DecimalValue(Digits(n)) == n
    ensures n > 0 ==> |Digits(n)| > 0 && Digits(n)[0] != '0'
  {
    if n > 0 {
      var p := Digits(n / 10);
      DigitsRoundTrip(n / 10);
      var d := n % 10;
      var s := p + [DigitChar(d)];
      assert s[..|s| - 1] == p;
      assert DigitValue(DigitChar(d)) == d;
      assert (n / 10) * 10 + d == n;
      assert DecimalValue(s) == DecimalValue(p) * 10 + d;
      if n / 10 == 0 {
        assert s == [DigitChar(d)];
      }
    }
  }

  /** `integerToString` always yields digits that `stringToInt` reads back. */
  lemma DecimalStringRoundTrip(n: int)
    requires n >= 0
    ensures IsDigits(DecimalString(n))
    ensures DecimalValue(DecimalString(n)) == n
  {
    if n == 0 {
      assert DecimalValue("0") == DecimalValue("") * 10 + DigitValue('0');
    } else {
      DigitsRoundTrip(n);
    }
  }

  /** Every prefix of a digit string is worth at most the whole string. */
  lemma {:induction false} DigitPrefixBounded(s: string, k: nat)
    requires k <= |s|
    requires forall i :: 0 <= i < |s| ==> '0' <= s[i] <= '9'
    ensures 0 <= DecimalValue(s[..k]) <= DecimalValue(s)
    decreases |s|
  {
    if k == |s| {
      assert s[..k] == s;
    } else {
      var init := s[..|s| - 1];
      assert init[..k] == s[..k];
      DigitPrefixBounded(init, k);
      assert DecimalValue(init) >= 0;
    }
  }

  /** For 0 <= n within int range the text `integerToString` gives never
      overflows `stringToInt`, which therefore returns n. */
  lemma IntRoundTripFits(n: int)
    requires 0 <= n <= MaxInt
    ensures IsDigits(DecimalString(n))
    ensures forall k :: 0 <= k <= |DecimalString(n)| ==>
              MinInt <= DecimalValue(DecimalString(n)[..k]) <= MaxInt
    ensures DecimalValue(DecimalString(n)) == n
  {
    DecimalStringRoundTrip(n);
    var s := DecimalString(n);
    forall k | 0 <= k <= |s|
      ensures MinInt <= DecimalValue(s[..k]) <= MaxInt
    {
      DigitPrefixBounded(s, k);
    }
  }

  /** Appending a digit to a positive value appends its character. */
  lemma DigitsSnoc(v: nat, d: int)
    requires v >= 1 && 0 <= d <= 9
    ensures Digits(v * 10 + d) == Digits(v) + [DigitChar(d)]
  {
    var n := v * 10 + d;
    assert n / 10 == v && n % 10 == d;
  }

  /** A digit string not starting with '0' is worth at least 1. */
  lemma {:induction false} LeadingDigitPositive(s: string)
    requires IsDigits(s) && s[0] != '0'
    ensures DecimalValue(s) >= 1
    decreases |s|
  {
    var init := s[..|s| - 1];
    if |s| > 1 {
      assert init[0] == s[0];
      LeadingDigitPositive(init);
    } else {
      assert init == [];
    }
  }

  /** Appending a digit to a canonical digit string other than "0" keeps it
      canonical. */
  lemma CanonicalStep(init: string, c: char)
    requires IsDigits(init) && init[0] != '0' && '0' <= c <= '9'
    requires DecimalString(DecimalValue(init)) == init
    ensures DecimalString(DecimalValue(init + [c])) == init + [c]
  {
    var s := init + [c];
    assert s[..|s| - 1] == init;
    var d := DigitValue(c);
    var v := DecimalValue(init);
    assert DecimalValue(s) == v * 10 + d;
    LeadingDigitPositive(init);
    DigitsSnoc(v, d);
    assert DigitChar(d) == c;
  }

  /** A digit string without leading zeros (or "0" itself) is what
      `integerToString` prints for its value. */
  lemma {:induction false} CanonicalDigitsRoundTrip(s: string)
    requires IsDigits(s)
    requires s[0] != '0' || s == "0"
    ensures DecimalString(DecimalValue(s)) == s
    decreases |s|
  {
    var init := s[..|s| - 1];
    var c := s[|s| - 1];
    assert init + [c] == s;
    if |s| == 1 {
      var d := DigitValue(c);
      assert DecimalValue(s) == DecimalValue(init) * 10 + d;
      assert DigitChar(d) == c;
      if c != '0' {
        assert Digits(d) == Digits(0) + [DigitChar(d)];
      }
    } else {
      assert init[0] == s[0];
      CanonicalDigitsRoundTrip(init);
      CanonicalStep(init, c);
    }
  }

  /** `integerToString` maps every value at or below 0 to "0". */
  lemma NonPositiveIsZero(n: int)
    requires n <= 0
    ensures DecimalString(n) == "0"
  {
  }

  // ---------------------------------------------------------------------------
  // validInput
  // ---------------------------------------------------------------------------

  /** validInput: linear search of the allowed answers. */
  method ValidInput(input: string, allowedInputs: seq<string>) returns (b: bool)
    ensures b <==> input in allowedInputs
  {
    var index := 0;
    while index < |allowedInputs|
      invariant 0 <= index <= |allowedInputs|
      invariant input !in allowedInputs[..index]
    {
      if allowedInputs[index] == input {
        return true;
      }
      assert allowedInputs[..index + 1] == allowedInputs[..index] + [allowedInputs[index]];
      index := index + 1;
    }
    assert allowedInputs[..index] == allowedInputs;
    return false;
  }
}
