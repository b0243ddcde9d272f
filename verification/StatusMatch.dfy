/** Expected HTTP status expressions: a range `a-b` or a comma-separated list. */
module StatusMatch {
  import opened Decimal

  // ----- the library functions the parser uses -----

  const MAX_INT := 0x7fff_ffff_ffff_ffff
  const MIN_INT := -0x8000_0000_0000_0000

  /** The Unicode white space that `strings.TrimSpace` removes. */
  predicate IsSpace(c: char) {
    || c == ' ' || '\t' <= c <= '\r'
    || c == '\U{0085}' || c == '\U{00A0}' || c == '\U{1680}' || '\U{2000}' <= c <= '\U{200A}'
    || c == '\U{2028}' || c == '\U{2029}' || c == '\U{202F}' || c == '\U{205F}' || c == '\U{3000}'
  }

  /** `strings.TrimSpace`. */
  function TrimLeft(s: string): string {
    if s != "" && IsSpace(s[0]) then TrimLeft(s[1..]) else s
  }

  function TrimRight(s: string): string {
    if s != "" && IsSpace(s[|s| - 1]) then TrimRight(s[..|s| - 1]) else s
  }

  function TrimSpace(s: string): string {
    TrimRight(TrimLeft(s))
  }

  /** Where a character first occurs; the length if it does not. */
  function IndexOf(s: string, c: char): (k: nat)
    ensures k <= |s| && (k < |s| ==> s[k] == c) && forall i :: 0 <= i < k ==> s[i] != c
  {
    if s == "" || s[0] == c then 0 else 1 + IndexOf(s[1..], c)
  }

  /** `strings.Split` on one character. */
  function Split(s: string, c: char): seq<string>
    decreases |s|
  {
    var k := IndexOf(s, c);
    if k == |s| then [s] else [s[..k]] + Split(s[k + 1..], c)
  }

  const MAX_UINT := 0xffff_ffff_ffff_ffff

  /** The loop of `strconv.ParseUint`: the first character that is not a digit or the first digit
      that overflows ends it, whichever comes first. */
  datatype Scan = Number(value: nat) | Syntax | Overflow

  function ScanDigits(s: string, read: nat): Scan {
    if s == "" then Number(read)
    else if !IsDigit(s[0]) then Syntax
    else if 10 * read + DigitValue(s[0]) > MAX_UINT then Overflow
    else ScanDigits(s[1..], 10 * read + DigitValue(s[0]))
  }

  function Clamp(n: int): int {
    if n > MAX_INT then MAX_INT else if n < MIN_INT then MIN_INT else n
  }

  /** The value `strconv.Atoi` returns, with its error ignored: zero if the text is not a signed
      numeral, the nearest integer if it is out of range. */
  function Atoi(s: string): int {
    var signed := s != "" && (s[0] == '-' || s[0] == '+');
    var digits := if signed then s[1..] else s;
    if digits == "" then 0
    else
      var sign := if signed && s[0] == '-' then -1 else 1;
      match ScanDigits(digits, 0)
      case Number(n) => Clamp(sign * n)
      case Overflow => Clamp(sign * MAX_UINT)
      case Syntax => 0
  }

  // ----- the expression -----

  predicate Matches(code: int, expected: string) {
    var e := TrimSpace(expected);
    var k := IndexOf(e, '-');
    if k < |e| then Atoi(e[..k]) <= code <= Atoi(e[k + 1..])
    else exists i :: 0 <= i < |Split(e, ',')| && code == Atoi(TrimSpace(Split(e, ',')[i]))
  }

  /** `statusMatches`. */
  method StatusMatches(code: int, expected: string) returns (matches: bool)
    ensures matches <==> Matches(code, expected)
  {
    var e := TrimSpace(expected);
    var k := IndexOf(e, '-');
    if k < |e| {
      var a, b := Atoi(e[..k]), Atoi(e[k + 1..]);
      return code >= a && code <= b;
    }
    var parts := Split(e, ',');
    for i := 0 to |parts|
      invariant forall j :: 0 <= j < i ==> code != Atoi(TrimSpace(parts[j]))
    {
      var n := Atoi(TrimSpace(parts[i]));
      if code == n {
        return true;
      }
    }
    return false;
  }

  // ----- trimming, splitting and reading back -----

  predicate AllSpace(s: string) {
    forall c :: c in s ==> IsSpace(c)
  }

  /** Text that neither begins nor ends with white space. */
  predicate Tight(s: string) {
    s != "" && !IsSpace(s[0]) && !IsSpace(s[|s| - 1])
  }

  lemma {:induction false} TrimLeftPadding(pad: string, s: string)
    requires AllSpace(pad) && (s == "" || !IsSpace(s[0]))
    ensures TrimLeft(pad + s) == s
  {
    if pad == "" {
      assert pad + s == s;
    } else {
      assert (pad + s)[0] in pad && (pad + s)[1..] == pad[1..] + s;
      TrimLeftPadding(pad[1..], s);
    }
  }

  lemma {:induction false} TrimRightPadding(s: string, pad: string)
    requires AllSpace(pad) && (s == "" || !IsSpace(s[|s| - 1]))
    ensures TrimRight(s + pad) == s
  {
    if pad == "" {
      assert s + pad == s;
    } else {
      var t := s + pad;
      assert t[|t| - 1] in pad && t[..|t| - 1] == s + pad[..|pad| - 1];
      TrimRightPadding(s, pad[..|pad| - 1]);
    }
  }

  lemma TrimPadded(left: string, s: string, right: string)
    requires AllSpace(left) && AllSpace(right) && Tight(s)
    ensures TrimSpace(left + s + right) == s
  {
    assert left + s + right == left + (s + right);
    TrimLeftPadding(left, s + right);
    TrimRightPadding(s, right);
  }

  /** The first separator is where the text before it ends. */
  lemma IndexAfter(a: string, b: string, c: char)
    requires c !in a
    ensures IndexOf(a + ([c] + b), c) == |a|
  {
    var s := a + ([c] + b);
    assert s[|a|] == c && forall i :: 0 <= i < |a| ==> s[i] == a[i] && a[i] in a;
  }

  /** Scanning the digits of a printed number leaves the number read. */
  lemma {:induction false} ScanPrint(n: nat, rest: string)
    requires n <= MAX_UINT
    ensures ScanDigits(Print(n) + rest, 0) == ScanDigits(rest, n)
  {
    var d := [Digit(n % 10)];
    if n < 10 {
      assert Print(n) + rest == d + rest && (d + rest)[1..] == rest;
    } else {
      ScanPrint(n / 10, d + rest);
      assert Print(n) + rest == Print(n / 10) + (d + rest) && (d + rest)[1..] == rest;
    }
  }

  /** A number beyond 64 bits overflows, whatever comes after its digits. */
  lemma {:induction false} ScanOverflows(n: nat, rest: string)
    requires n > MAX_UINT
    ensures ScanDigits(Print(n) + rest, 0) == Overflow
  {
    var d := [Digit(n % 10)];
    assert Print(n) + rest == Print(n / 10) + (d + rest);
    if n / 10 > MAX_UINT {
      ScanOverflows(n / 10, d + rest);
    } else {
      ScanPrint(n / 10, d + rest);
    }
  }

  /** What `Atoi` reads: a printed number with or without a sign, the nearest 64-bit integer if it is
      out of range. */
  lemma AtoiIs(n: nat)
    ensures Atoi(Print(n)) == Atoi("+" + Print(n)) == if n <= 0x7fff_ffff_ffff_ffff then n else 0x7fff_ffff_ffff_ffff
    ensures Atoi("-" + Print(n)) == if n <= 0x8000_0000_0000_0000 then -(n as int) else -0x8000_0000_0000_0000
  {
    var s := Print(n);
    PrintStarts(n, "");
    assert s + "" == s && ("+" + s)[1..] == s && ("-" + s)[1..] == s;
    if n <= MAX_UINT {
      ScanPrint(n, "");
    } else {
      ScanOverflows(n, "");
    }
  }

  /** Text that begins with neither a sign nor a digit reads as zero. */
  lemma AtoiOther(s: string)
    requires s == "" || (s[0] != '+' && s[0] != '-' && !('0' <= s[0] <= '9'))
    ensures Atoi(s) == 0
  {
  }

  lemma PrintStarts(n: nat, rest: string)
    ensures Print(n) != "" && IsDigit((Print(n) + rest)[0])
  {
    PrintReads(n);
    assert (Print(n) + rest)[0] == Print(n)[0] && Print(n)[0] in Print(n);
  }

  /** What `Atoi` makes of a printed number and the text after it. */
  lemma AtoiPrefix(n: nat, rest: string)
    requires n <= MAX_INT && (rest == "" || !IsDigit(rest[0]))
    ensures Atoi(Print(n) + rest) == if rest == "" then n else 0
  {
    PrintStarts(n, rest);
    ScanPrint(n, rest);
  }

  lemma AtoiPrint(n: nat)
    requires n <= MAX_INT
    ensures Atoi(Print(n)) == n && Tight(Print(n)) && '-' !in Print(n) && ',' !in Print(n)
  {
    PrintReads(n);
    AtoiPrefix(n, "");
    var s := Print(n);
    assert s + "" == s && s[0] in s && s[|s| - 1] in s;
  }

  lemma RangeSplits(x: string, y: string)
    requires x != "" && !IsSpace(x[0]) && y != "" && !IsSpace(y[|y| - 1]) && '-' !in x
    ensures var e := x + ("-" + y);
            TrimSpace(e) == e && IndexOf(e, '-') == |x| && e[..|x|] == x && e[|x| + 1..] == y
  {
    var e := x + ("-" + y);
    TrimPadded("", e, "");
    assert "" + e + "" == e;
    IndexAfter(x, y, '-');
  }

  /** The first dash decides: what is before and after it are the bounds. */
  lemma RangeMeaning(x: string, y: string, code: int)
    requires x != "" && !IsSpace(x[0]) && y != "" && !IsSpace(y[|y| - 1]) && '-' !in x
    ensures Matches(code, x + ("-" + y)) <==> Atoi(x) <= code <= Atoi(y)
  {
    RangeSplits(x, y);
  }

  /** For all bounds, the printed range matches exactly the codes from `a` to `b`. */
  lemma RangeMatches(a: nat, b: nat, code: int)
    requires a <= 0x7fff_ffff_ffff_ffff && b <= 0x7fff_ffff_ffff_ffff
    ensures Matches(code, Print(a) + ("-" + Print(b))) <==> a <= code <= b
  {
    AtoiPrint(a);
    AtoiPrint(b);
    RangeMeaning(Print(a), Print(b), code);
  }

  // ----- expressions -----

  /** A term of an expression: a code or a range, with white space wherever it may be written. */
  datatype Term =
    | Code(left: string, code: nat, right: string)
    | Range(left: string, low: nat, before: string, after: string, high: nat, right: string)

  predicate IsTerm(t: Term) {
    && AllSpace(t.left) && AllSpace(t.right)
    && match t
       case Code(_, code, _) => code <= MAX_INT
       case Range(_, low, before, after, high, _) => low <= MAX_INT && high <= MAX_INT && AllSpace(before) && AllSpace(after)
  }

  /** At least one term, no white space at the two ends. */
  predicate IsExpression(terms: seq<Term>) {
    && terms != [] && (forall t :: t in terms ==> IsTerm(t))
    && terms[0].left == "" && terms[|terms| - 1].right == ""
  }

  function PrintTerm(t: Term): string {
    match t
    case Code(left, code, right) => left + Print(code) + right
    case Range(left, low, before, after, high, right) => left + (Print(low) + before) + ("-" + (after + (Print(high) + right)))
  }

  /** The terms, separated by commas. */
  function PrintTerms(terms: seq<Term>): string
    requires terms != []
  {
    if |terms| == 1 then PrintTerm(terms[0]) else PrintTerm(terms[0]) + ("," + PrintTerms(terms[1..]))
  }

  /** What an expression says: the codes it lists and the codes of its ranges. */
  predicate Contains(t: Term, code: int) {
    match t
    case Code(_, n, _) => code == n
    case Range(_, low, _, _, high, _) => low <= code <= high
  }

  predicate Denotes(terms: seq<Term>, code: int) {
    exists i :: 0 <= i < |terms| && Contains(terms[i], code)
  }

  predicate HasRange(terms: seq<Term>) {
    exists i :: 0 <= i < |terms| && terms[i].Range?
  }

  /** The place of the first range; the number of terms if there is none. */
  function FirstRange(terms: seq<Term>): (r: nat)
    ensures r <= |terms| && (r < |terms| ==> terms[r].Range?) && forall i :: 0 <= i < r ==> terms[i].Code?
  {
    if terms == [] || terms[0].Range? then 0 else 1 + FirstRange(terms[1..])
  }

  // ----- lists: expressions without a range -----

  lemma CodeReads(t: Term)
    requires IsTerm(t) && t.Code?
    ensures Atoi(TrimSpace(PrintTerm(t))) == t.code && '-' !in PrintTerm(t) && ',' !in PrintTerm(t)
  {
    AtoiPrint(t.code);
    TrimPadded(t.left, Print(t.code), t.right);
  }

  lemma SplitAt(a: string, b: string, c: char)
    requires c !in a
    ensures Split(a + ([c] + b), c) == [a] + Split(b, c)
  {
    IndexAfter(a, b, c);
    var s := a + ([c] + b);
    assert s[..|a|] == a && s[|a| + 1..] == b;
  }

  lemma SplitNone(a: string, c: char)
    requires c !in a
    ensures Split(a, c) == [a]
  {
    assert forall i :: 0 <= i < |a| ==> a[i] in a;
  }

  /** Splitting a printed list gives the printed codes back. */
  lemma {:induction false} SplitList(terms: seq<Term>)
    requires terms != [] && forall t :: t in terms ==> IsTerm(t) && t.Code?
    ensures '-' !in PrintTerms(terms)
    ensures |Split(PrintTerms(terms), ',')| == |terms|
    ensures forall i :: 0 <= i < |terms| ==> Split(PrintTerms(terms), ',')[i] == PrintTerm(terms[i])
  {
    assert terms[0] in terms;
    CodeReads(terms[0]);
    if |terms| == 1 {
      SplitNone(PrintTerm(terms[0]), ',');
    } else {
      SplitList(terms[1..]);
      SplitAt(PrintTerm(terms[0]), PrintTerms(terms[1..]), ',');
    }
  }

  /** One of the parts between the commas is the code. */
  predicate MatchesPart(code: int, parts: seq<string>) {
    exists i :: 0 <= i < |parts| && code == Atoi(TrimSpace(parts[i]))
  }

  /** Without a dash the parts between the commas decide. */
  lemma ListMeaning(expected: string, s: string, code: int)
    requires TrimSpace(expected) == s && '-' !in s
    ensures Matches(code, expected) <==> MatchesPart(code, Split(s, ','))
  {
    assert IndexOf(s, '-') == |s| by {
      assert forall i :: 0 <= i < |s| ==> s[i] in s;
    }
  }

  lemma PartsMeaning(parts: seq<string>, terms: seq<Term>, code: int)
    requires |parts| == |terms|
    requires forall i :: 0 <= i < |terms| ==> IsTerm(terms[i]) && terms[i].Code? && parts[i] == PrintTerm(terms[i])
    ensures MatchesPart(code, parts) <==> Denotes(terms, code)
  {
    forall i | 0 <= i < |terms| ensures Atoi(TrimSpace(parts[i])) == terms[i].code {
      CodeReads(terms[i]);
    }
    if Denotes(terms, code) {
      var i :| 0 <= i < |terms| && Contains(terms[i], code);
      assert code == Atoi(TrimSpace(parts[i]));
    }
    if MatchesPart(code, parts) {
      var i :| 0 <= i < |parts| && code == Atoi(TrimSpace(parts[i]));
      assert Contains(terms[i], code);
    }
  }

  // ----- where an expression begins and ends -----

  lemma TermEnds(t: Term)
    requires IsTerm(t)
    ensures PrintTerm(t) != ""
    ensures t.left == "" ==> !IsSpace(PrintTerm(t)[0])
    ensures t.right == "" ==> !IsSpace(PrintTerm(t)[|PrintTerm(t)| - 1])
  {
    match t
    case Code(_, code, _) => AtoiPrint(code);
    case Range(_, low, _, _, high, _) =>
      AtoiPrint(low);
      AtoiPrint(high);
  }

  lemma {:induction false} TermsEnds(terms: seq<Term>)
    requires terms != [] && forall t :: t in terms ==> IsTerm(t)
    ensures var s := PrintTerms(terms);
            && s != ""
            && (terms[0].left == "" ==> !IsSpace(s[0]))
            && (terms[|terms| - 1].right == "" ==> !IsSpace(s[|s| - 1]))
  {
    assert terms[0] in terms;
    TermEnds(terms[0]);
    if |terms| > 1 {
      TermsEnds(terms[1..]);
    }
  }

  /** White space around an expression does not matter. */
  lemma OuterSpace(left: string, s: string, right: string, code: int)
    requires AllSpace(left) && AllSpace(right) && Tight(s)
    ensures TrimSpace(left + s + right) == s == TrimSpace(s)
    ensures Matches(code, left + s + right) <==> Matches(code, s)
  {
    TrimPadded(left, s, right);
    TrimPadded("", s, "");
    assert "" + s + "" == s;
  }

  /** A printed list, with white space around its codes and around the whole, matches exactly its
      members. */
  lemma ListMatches(left: string, terms: seq<Term>, right: string, code: int)
    requires IsExpression(terms) && !HasRange(terms) && AllSpace(left) && AllSpace(right)
    ensures Matches(code, left + PrintTerms(terms) + right) <==> Denotes(terms, code)
  {
    var s := PrintTerms(terms);
    TermsEnds(terms);
    OuterSpace(left, s, right, code);
    SplitList(terms);
    ListMeaning(s, s, code);
    PartsMeaning(Split(s, ','), terms, code);
  }

  // ----- expressions with a range: the first dash decides -----

  /** The text before the dash of the first range, and the text after it. */
  function Front(terms: seq<Term>): string {
    if terms == [] then ""
    else if terms[0].Range? then terms[0].left + (Print(terms[0].low) + terms[0].before)
    else PrintTerm(terms[0]) + ("," + Front(terms[1..]))
  }

  /** The text after a term: the further terms, if any. */
  function Tail(terms: seq<Term>): string
    requires terms != []
  {
    if |terms| == 1 then "" else "," + PrintTerms(terms[1..])
  }

  function Back(terms: seq<Term>): string {
    if terms == [] then ""
    else if terms[0].Range? then
      terms[0].after + (Print(terms[0].high) + (terms[0].right + Tail(terms)))
    else Back(terms[1..])
  }

  lemma RangeSplitsHere(t: Term, tail: string)
    requires t.Range?
    ensures PrintTerm(t) + tail == (t.left + (Print(t.low) + t.before)) + ("-" + (t.after + (Print(t.high) + (t.right + tail))))
  {
  }

  lemma CodeFrontHere(a: string, front: string, back: string)
    ensures a + ("," + (front + ("-" + back))) == (a + ("," + front)) + ("-" + back)
  {
  }

  lemma RestHasRange(terms: seq<Term>)
    requires HasRange(terms) && terms[0].Code?
    ensures HasRange(terms[1..])
  {
    var i :| 0 <= i < |terms| && terms[i].Range?;
    assert terms[1..][i - 1].Range?;
  }

  lemma SplitsHere(terms: seq<Term>)
    requires terms != [] && terms[0].Range? && IsTerm(terms[0])
    ensures PrintTerms(terms) == Front(terms) + ("-" + Back(terms))
    ensures '-' !in Front(terms)
  {
    var t := terms[0];
    AtoiPrint(t.low);
    RangeSplitsHere(t, Tail(terms));
    assert PrintTerm(t) + "" == PrintTerm(t);
  }

  lemma {:induction false} SplitsAtRange(terms: seq<Term>)
    requires HasRange(terms) && forall t :: t in terms ==> IsTerm(t)
    ensures PrintTerms(terms) == Front(terms) + ("-" + Back(terms))
    ensures '-' !in Front(terms)
  {
    var t := terms[0];
    assert t in terms;
    if t.Range? {
      SplitsHere(terms);
    } else {
      RestHasRange(terms);
      SplitsAtRange(terms[1..]);
      CodeReads(t);
      CodeFrontHere(PrintTerm(t), Front(terms[1..]), Back(terms[1..]));
    }
  }

  /** The lower bound the parser reads: the range's own only if nothing comes before it and no
      space before its dash. */
  function Lower(terms: seq<Term>): nat {
    if terms != [] && terms[0].Range? && terms[0].before == "" then terms[0].low else 0
  }

  /** The upper bound the parser reads: the range's own only if nothing comes after it and no
      space after its dash. */
  function Upper(terms: seq<Term>): nat {
    var r := FirstRange(terms);
    if r == |terms| - 1 && terms[r].after == "" then terms[r].high else 0
  }

  lemma AtoiFrontHere(n: nat, space: string, tail: string)
    requires n <= MAX_INT && AllSpace(space) && (tail == "" || tail[0] == ',')
    ensures var s := Print(n) + (space + tail);
            && Atoi(s) == (if space == "" && tail == "" then n else 0)
            && s != "" && !IsSpace(s[0])
  {
    var rest := space + tail;
    assert space != "" ==> rest[0] == space[0] && space[0] in space;
    PrintStarts(n, rest);
    AtoiPrefix(n, rest);
  }

  lemma AssociateFront(a: string, b: string, c: string)
    ensures (a + b) + c == a + (b + c) && "" + (a + b) == a + (b + "") && "" + a + b == a + b
  {
  }

  lemma AtoiFront(terms: seq<Term>)
    requires terms != [] && terms[0].left == "" && IsTerm(terms[0])
    ensures Atoi(Front(terms)) == Lower(terms)
    ensures Front(terms) != "" && !IsSpace(Front(terms)[0])
  {
    match terms[0]
    case Range(_, low, before, _, _, _) =>
      AtoiFrontHere(low, before, "");
      AssociateFront(Print(low), before, "");
    case Code(_, code, right) =>
      var tail := "," + Front(terms[1..]);
      AtoiFrontHere(code, right, tail);
      AssociateFront(Print(code), right, tail);
  }

  /** Text that begins with white space is no number. */
  lemma AtoiSpace(s: string)
    requires s != "" && IsSpace(s[0])
    ensures Atoi(s) == 0
  {
  }

  lemma AtoiBackHere(t: Term, tail: string)
    requires IsTerm(t) && t.Range? && (tail == "" || tail[0] == ',')
    ensures Atoi(t.after + (Print(t.high) + (t.right + tail))) ==
            if t.after == "" && t.right == "" && tail == "" then t.high else 0
  {
    var rest := Print(t.high) + (t.right + tail);
    if t.after == "" {
      AtoiFrontHere(t.high, t.right, tail);
      assert t.after + rest == rest;
    } else {
      assert t.after[0] in t.after;
      AtoiSpace(t.after + rest);
    }
  }

  /** Text ends as its non-empty end does. */
  lemma EndsAlike(a: string, b: string)
    requires b != "" && !IsSpace(b[|b| - 1])
    ensures a + b != "" && !IsSpace((a + b)[|a + b| - 1])
  {
  }

  lemma BackEnds(t: Term, tail: string)
    requires t.Range? && IsTerm(t)
    requires if tail == "" then t.right == "" else !IsSpace(tail[|tail| - 1])
    ensures var s := t.after + (Print(t.high) + (t.right + tail)); s != "" && !IsSpace(s[|s| - 1])
  {
    AtoiPrint(t.high);
    if tail == "" {
      assert Print(t.high) + (t.right + tail) == Print(t.high);
    } else {
      EndsAlike(t.right, tail);
      EndsAlike(Print(t.high), t.right + tail);
    }
    EndsAlike(t.after, Print(t.high) + (t.right + tail));
  }

  lemma TailEnds(terms: seq<Term>)
    requires terms != [] && terms[|terms| - 1].right == "" && forall t :: t in terms ==> IsTerm(t)
    ensures var tail := Tail(terms);
            if |terms| == 1 then tail == "" else tail != "" && tail[0] == ',' && !IsSpace(tail[|tail| - 1])
  {
    if |terms| > 1 {
      TermsEnds(terms[1..]);
      EndsAlike(",", PrintTerms(terms[1..]));
    }
  }

  lemma AtoiBackAtRange(terms: seq<Term>)
    requires terms != [] && terms[0].Range? && terms[|terms| - 1].right == "" && forall t :: t in terms ==> IsTerm(t)
    ensures Atoi(Back(terms)) == Upper(terms)
    ensures Back(terms) != "" && !IsSpace(Back(terms)[|Back(terms)| - 1])
  {
    assert terms[0] in terms;
    TailEnds(terms);
    AtoiBackHere(terms[0], Tail(terms));
    BackEnds(terms[0], Tail(terms));
  }

  lemma {:induction false} AtoiBack(terms: seq<Term>)
    requires HasRange(terms) && terms[|terms| - 1].right == "" && forall t :: t in terms ==> IsTerm(t)
    ensures Atoi(Back(terms)) == Upper(terms)
    ensures Back(terms) != "" && !IsSpace(Back(terms)[|Back(terms)| - 1])
  {
    if terms[0].Range? {
      AtoiBackAtRange(terms);
    } else {
      RestHasRange(terms);
      AtoiBack(terms[1..]);
    }
  }

  lemma BareRangeMatches(terms: seq<Term>, code: int)
    requires IsExpression(terms) && HasRange(terms)
    ensures Matches(code, PrintTerms(terms)) <==> Lower(terms) <= code <= Upper(terms)
  {
    SplitsAtRange(terms);
    assert terms[0] in terms;
    AtoiFront(terms);
    AtoiBack(terms);
    RangeMeaning(Front(terms), Back(terms), code);
  }

  /** The exact meaning of every expression with a range, wherever the range stands and however it
      is spaced: one interval, whose bounds are 0 unless they can be read. */
  lemma RangeExpressionMatches(left: string, terms: seq<Term>, right: string, code: int)
    requires IsExpression(terms) && HasRange(terms) && AllSpace(left) && AllSpace(right)
    ensures Matches(code, left + PrintTerms(terms) + right) <==> Lower(terms) <= code <= Upper(terms)
  {
    TermsEnds(terms);
    OuterSpace(left, PrintTerms(terms), right, code);
    BareRangeMatches(terms, code);
  }

  // ----- against what the expression says -----

  /** The term names no code from `least` on. */
  predicate NamesNothing(t: Term, least: nat) {
    match t
    case Code(_, code, _) => code < least
    case Range(_, low, _, _, high, _) => high < low || high < least
  }

  /** When the parser agrees with the expression on all codes from `least` on: the expression has
      no range; or it is a single range without a space before its dash, and the upper bound is
      read; or the first range comes last with its upper bound read, exceeds every listed code
      and has every code below it listed; or the upper bound is not read and nothing is named. */
  predicate Agrees(terms: seq<Term>, least: nat) {
    !HasRange(terms) ||
    var r := FirstRange(terms);
    if r < |terms| - 1 || terms[r].after != "" then forall i :: 0 <= i < |terms| ==> NamesNothing(terms[i], least)
    else
      (r == 0 && terms[r].before == "") || FillsUp(terms, r, least)
  }

  /** One of the first `r` terms is the code. */
  predicate Lists(terms: seq<Term>, r: nat, c: int)
    requires r <= |terms|
  {
    exists i :: 0 <= i < r && terms[i].Code? && terms[i].code == c
  }

  ghost predicate SameFrom(terms: seq<Term>, least: nat) {
    forall code :: code >= least ==> (Lower(terms) <= code <= Upper(terms) <==> Denotes(terms, code))
  }

  lemma FirstRangeIs(terms: seq<Term>)
    requires HasRange(terms)
    ensures FirstRange(terms) < |terms|
  {
  }

  lemma UnreadAgrees(terms: seq<Term>, least: nat)
    requires HasRange(terms) && least >= 1 && Upper(terms) == 0
    ensures SameFrom(terms, least) <==> forall i :: 0 <= i < |terms| ==> NamesNothing(terms[i], least)
  {
    if SameFrom(terms, least) {
      forall i | 0 <= i < |terms| ensures NamesNothing(terms[i], least) {
        var t := terms[i];
        var code := if t.Code? then t.code else if t.low >= least then t.low else least;
        assert !NamesNothing(t, least) ==> Contains(terms[i], code) && code >= least;
        assert !NamesNothing(t, least) ==> Denotes(terms, code);
      }
    }
  }

  /** With the only range last, a code is denoted by the list before it or by the range. */
  lemma DenotesLast(terms: seq<Term>, code: int)
    requires HasRange(terms) && FirstRange(terms) == |terms| - 1
    ensures var r := |terms| - 1;
            Denotes(terms, code) <==> Lists(terms, r, code) || terms[r].low <= code <= terms[r].high
  {
    var r := |terms| - 1;
    if terms[r].low <= code <= terms[r].high {
      assert Contains(terms[r], code);
    }
    if Lists(terms, r, code) {
      var i :| 0 <= i < r && terms[i].Code? && terms[i].code == code;
      assert Contains(terms[i], code);
    }
  }

  /** Every listed code is within the range's upper bound, and every code below the range listed. */
  predicate FillsUp(terms: seq<Term>, r: nat, least: nat)
    requires r < |terms| && terms[r].Range? && forall i :: 0 <= i < r ==> terms[i].Code?
  {
    && (forall i :: 0 <= i < r ==> terms[i].code < least || terms[i].code <= terms[r].high)
    && forall c :: least <= c < terms[r].low && c <= terms[r].high ==> Lists(terms, r, c)
  }

  lemma SameFillsUp(terms: seq<Term>, least: nat)
    requires HasRange(terms) && least >= 1 && Lower(terms) == 0 && FirstRange(terms) == |terms| - 1
    requires terms[|terms| - 1].after == "" && SameFrom(terms, least)
    ensures FillsUp(terms, |terms| - 1, least)
  {
    var r := |terms| - 1;
    forall i | 0 <= i < r ensures terms[i].code < least || terms[i].code <= terms[r].high {
      assert Contains(terms[i], terms[i].code);
      assert Denotes(terms, terms[i].code);
    }
    forall c | least <= c < terms[r].low && c <= terms[r].high ensures Lists(terms, r, c) {
      DenotesLast(terms, c);
    }
  }

  lemma FillsUpSame(terms: seq<Term>, least: nat)
    requires HasRange(terms) && least >= 1 && Lower(terms) == 0 && FirstRange(terms) == |terms| - 1
    requires terms[|terms| - 1].after == "" && FillsUp(terms, |terms| - 1, least)
    ensures SameFrom(terms, least)
  {
    forall code | code >= least ensures Lower(terms) <= code <= Upper(terms) <==> Denotes(terms, code) {
      DenotesLast(terms, code);
    }
  }

  /** The parser agrees with the expression on every code from `least` on, if and only if the
      expression has one of the shapes of `Agrees`. A status is at least 1. */
  lemma AgreesIff(left: string, terms: seq<Term>, right: string, least: nat)
    requires IsExpression(terms) && AllSpace(left) && AllSpace(right) && least >= 1
    ensures (forall code :: code >= least ==>
               (Matches(code, left + PrintTerms(terms) + right) <==> Denotes(terms, code))) <==>
            Agrees(terms, least)
  {
    if !HasRange(terms) {
      forall code ensures Matches(code, left + PrintTerms(terms) + right) <==> Denotes(terms, code) {
        ListMatches(left, terms, right, code);
      }
    } else {
      forall code
        ensures Matches(code, left + PrintTerms(terms) + right) <==> Lower(terms) <= code <= Upper(terms)
      {
        RangeExpressionMatches(left, terms, right, code);
      }
      SameIff(terms, least);
    }
  }

  lemma SameIff(terms: seq<Term>, least: nat)
    requires HasRange(terms) && least >= 1
    ensures SameFrom(terms, least) <==> Agrees(terms, least)
  {
    FirstRangeIs(terms);
    var r := FirstRange(terms);
    if r < |terms| - 1 || terms[r].after != "" {
      UnreadAgrees(terms, least);
    } else if r == 0 && terms[r].before == "" {
      forall code ensures Denotes(terms, code) <==> terms[0].low <= code <= terms[0].high {
        if terms[0].low <= code <= terms[0].high {
          assert Contains(terms[0], code);
        }
      }
    } else {
      if SameFrom(terms, least) {
        SameFillsUp(terms, least);
      }
      if FillsUp(terms, r, least) {
        FillsUpSame(terms, least);
      }
    }
  }

  // ----- the shapes that fail, with an input each -----

  function Plain(n: nat): Term {
    Code("", n, "")
  }

  function Dashed(low: nat, before: string, after: string, high: nat): Term {
    Range("", low, before, after, high, "")
  }

  /** A list and then a range: everything from 0 to the range's end. */
  lemma ListThenRange(codes: seq<Term>, range: Term, code: int)
    requires codes != [] && IsExpression(codes + [range]) && !HasRange(codes) && range.Range? && range.after == ""
    ensures Matches(code, PrintTerms(codes + [range])) <==> 0 <= code <= range.high
  {
    var terms := codes + [range];
    assert terms[|codes|].Range? && terms[0] == codes[0];
    assert codes[0].Code?;
    forall i | 0 <= i < |codes| ensures terms[i].Code? {
      assert terms[i] == codes[i];
    }
    RangeExpressionMatches("", terms, "", code);
    assert "" + PrintTerms(terms) + "" == PrintTerms(terms);
  }

  /** A range and then anything: nothing but 0, and that only if the range begins there or its
      dash has a space before it. */
  lemma RangeThenList(range: Term, rest: seq<Term>, code: int)
    requires rest != [] && IsExpression([range] + rest) && range.Range?
    ensures Matches(code, PrintTerms([range] + rest)) <==> code == 0 && (range.low == 0 || range.before != "")
  {
    var terms := [range] + rest;
    assert terms[0].Range?;
    RangeExpressionMatches("", terms, "", code);
    assert "" + PrintTerms(terms) + "" == PrintTerms(terms);
  }

  /** A single range: white space before its dash reads the lower bound as 0, white space after it
      the upper bound. */
  lemma SpacedRange(low: nat, before: string, after: string, high: nat, code: int)
    requires low <= MAX_INT && high <= MAX_INT && AllSpace(before) && AllSpace(after)
    ensures Matches(code, PrintTerms([Dashed(low, before, after, high)])) <==>
            (if before == "" then low else 0) <= code <= (if after == "" then high else 0)
  {
    var terms := [Dashed(low, before, after, high)];
    assert terms[0].Range?;
    RangeExpressionMatches("", terms, "", code);
    assert "" + PrintTerms(terms) + "" == PrintTerms(terms);
  }

  /** The printed forms of the inputs below. */
  lemma PrintsHundreds()
    ensures Print(100) == "100" && Print(200) == "200" && Print(299) == "299"
    ensures Print(301) == "301" && Print(302) == "302" && Print(1) == "1"
  {
  }

  lemma ListThenRangePrints()
    ensures IsExpression([Plain(200)] + [Dashed(301, "", "", 302)])
    ensures PrintTerms([Plain(200)] + [Dashed(301, "", "", 302)]) == "200,301-302"
  {
    PrintsHundreds();
    var codes, range := [Plain(200)], Dashed(301, "", "", 302);
    assert (codes + [range])[1..] == [range];
    assert PrintTerms([range]) == "301-302";
  }

  /** "200,301-302" accepts 250. */
  lemma ListThenRangeFailsOpen()
    ensures Matches(250, "200,301-302")
  {
    ListThenRangePrints();
    ListThenRange([Plain(200)], Dashed(301, "", "", 302), 250);
  }

  /** "301-302,200" rejects all it lists. */
  lemma RangeThenListFailsClosed()
    ensures !Matches(301, "301-302,200") && !Matches(302, "301-302,200") && !Matches(200, "301-302,200")
  {
    PrintsHundreds();
    var range, rest := Dashed(301, "", "", 302), [Plain(200)];
    assert ([range] + rest)[1..] == rest;
    assert PrintTerms(rest) == "200";
    assert PrintTerms([range] + rest) == "301-302,200";
    RangeThenList(range, rest, 301);
    RangeThenList(range, rest, 302);
    RangeThenList(range, rest, 200);
  }

  /** "200 -299" accepts 100; "200- 299" and "200 - 299" reject 250. */
  lemma SpaceLeftFailsOpen()
    ensures Matches(100, "200 -299")
  {
    PrintsHundreds();
    assert PrintTerms([Dashed(200, " ", "", 299)]) == "200 -299";
    SpacedRange(200, " ", "", 299, 100);
  }

  lemma SpaceRightFailsClosed()
    ensures !Matches(250, "200- 299")
  {
    PrintsHundreds();
    assert PrintTerms([Dashed(200, "", " ", 299)]) == "200- 299";
    SpacedRange(200, "", " ", 299, 250);
  }

  lemma SpaceBothFailsClosed()
    ensures !Matches(250, "200 - 299")
  {
    PrintsHundreds();
    assert PrintTerms([Dashed(200, " ", " ", 299)]) == "200 - 299";
    SpacedRange(200, " ", " ", 299, 250);
  }

  lemma CoincidencePrints()
    ensures IsExpression([Plain(200)] + [Dashed(1, "", "", 302)])
    ensures PrintTerms([Plain(200)] + [Dashed(1, "", "", 302)]) == "200,1-302"
  {
    PrintsHundreds();
    var codes, range := [Plain(200)], Dashed(1, "", "", 302);
    assert (codes + [range])[1..] == [range];
    assert PrintTerms([range]) == "1-302";
  }

  /** "200,1-302" means what it says, by coincidence: the list lies within the range, which begins
      at the least status. */
  lemma Coincidence(code: int)
    requires code >= 1
    ensures Matches(code, "200,1-302") <==> code == 200 || 1 <= code <= 302
  {
    CoincidencePrints();
    ListThenRange([Plain(200)], Dashed(1, "", "", 302), code);
  }
}
