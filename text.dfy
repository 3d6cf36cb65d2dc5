/** String primitives the bot relies on: .NET's String.Split, Trim, ToLower,
    StartsWith, Contains and Replace, the decimal rendering of a 64-bit id
    (long.ToString) and its parser long.TryParse. */
module Text {

  /** A .NET `long`. */
  type Long = n: int | -0x8000_0000_0000_0000 <= n < 0x8000_0000_0000_0000

  datatype Option<+T> = None | Some(value: T)

  // ---------------------------------------------------------------------------
  // Split and Join

  /** `s.Split(c)`: every maximal run of non-`c` characters, empty runs included. */
  function Split(s: string, c: char): (parts: seq<string>)
    ensures |parts| >= 1
    decreases |s|
  {
    if s == [] then [""]
    else
      var rest := Split(s[1..], c);
      if s[0] == c then [""] + rest
      else [[s[0]] + rest[0]] + rest[1..]
  }

  /** No piece of a split contains the separator. */
  lemma {:induction false} SplitPiecesFree(s: string, c: char)
    ensures forall i :: 0 <= i < |Split(s, c)| ==> c !in Split(s, c)[i]
    decreases |s|
  {
    if s != [] {
      SplitPiecesFree(s[1..], c);
      var rest := Split(s[1..], c);
      if s[0] != c {
        assert c !in [s[0]] + rest[0];
      }
    }
  }

  /** `text.Split(' ').ElementAtOrDefault(i)`: the i-th space-separated word, if any. */
  function Word(text: string, i: nat): (w: Option<string>)
  {
    var parts := Split(text, ' ');
    if i < |parts| then Some(parts[i]) else None
  }

  /** There is an i-th word exactly when the text has more than i pieces, and
      no word contains a space. */
  lemma WordSpec(text: string, i: nat)
    ensures Word(text, i).Some? <==> i < Count(text, ' ') + 1
    ensures Word(text, i).Some? ==> ' ' !in Word(text, i).value
  {
    SplitLength(text, ' ');
    SplitPiecesFree(text, ' ');
  }

  /** `text.Split(' ')[1].Trim()` behind a `Length < 2` guard: the trimmed
      token after a command, if there is a second word. */
  function Token(text: string): (r: Option<string>)
  {
    match Word(text, 1)
    case Some(w) => Some(Trim(w))
    case None => None
  }

  /** `string.Join(c, parts)`. */
  function Join(parts: seq<string>, c: char): (r: string)
    requires |parts| >= 1
    decreases |parts|
  {
    if |parts| == 1 then parts[0] else parts[0] + [c] + Join(parts[1..], c)
  }

  /** Number of occurrences of `c` in `s`. */
  function Count(s: string, c: char): (r: nat)
  {
    if s == [] then 0 else (if s[0] == c then 1 else 0) + Count(s[1..], c)
  }

  /** Joining the pieces with the separator gives the text back. */
  lemma {:induction false} JoinSplit(s: string, c: char)
    ensures Join(Split(s, c), c) == s
    decreases |s|
  {
    if s != [] {
      JoinSplit(s[1..], c);
      var rest := Split(s[1..], c);
      if s[0] == c {
        assert ([""] + rest)[1..] == rest;
      } else {
        var parts := [[s[0]] + rest[0]] + rest[1..];
        if |rest| > 1 {
          assert parts[1..] == rest[1..];
          assert Join(rest, c) == rest[0] + [c] + Join(rest[1..], c);
        }
      }
    }
  }

  /** Splitting yields exactly one more piece than there are separators. */
  lemma {:induction false} SplitLength(s: string, c: char)
    ensures |Split(s, c)| == Count(s, c) + 1
    decreases |s|
  {
    if s != [] { SplitLength(s[1..], c); }
  }

  /** Splitting a join of separator-free pieces gives the pieces back. */
  lemma {:induction false} SplitJoin(parts: seq<string>, c: char)
    requires |parts| >= 1
    requires forall i :: 0 <= i < |parts| ==> c !in parts[i]
    ensures Split(Join(parts, c), c) == parts
    decreases |parts|, |parts[0]|
  {
    if |parts| == 1 {
      NoSeparatorSplit(parts[0], c);
    } else if parts[0] == [] {
      var tail := Join(parts[1..], c);
      assert Join(parts, c) == [c] + tail;
      SplitCons(c, tail, c);
      SplitJoin(parts[1..], c);
      assert [""] + parts[1..] == parts;
    } else {
      var p0 := parts[0];
      var shorter := [p0[1..]] + parts[1..];
      assert c !in p0[1..] by {
        assert forall k :: 0 <= k < |p0[1..]| ==> p0[1..][k] == p0[k + 1];
      }
      assert forall i :: 0 <= i < |shorter| ==> c !in shorter[i] by {
        assert forall i :: 1 <= i < |shorter| ==> shorter[i] == parts[i];
      }
      SplitJoin(shorter, c);
      JoinHead(parts, c);
      SplitCons(p0[0], Join(shorter, c), c);
      assert [[p0[0]] + shorter[0]] + shorter[1..] == parts by {
        assert p0 == [p0[0]] + p0[1..];
        assert shorter[1..] == parts[1..];
      }
    }
  }

  /** Joining pieces whose first is not empty starts with that piece's first
      character, followed by the join with it removed. */
  lemma JoinHead(parts: seq<string>, c: char)
    requires |parts| >= 1 && parts[0] != []
    ensures Join(parts, c) == [parts[0][0]] + Join([parts[0][1..]] + parts[1..], c)
  {
    var shorter := [parts[0][1..]] + parts[1..];
    assert shorter[1..] == parts[1..];
    assert parts[0] == [parts[0][0]] + parts[0][1..];
  }

  /** The first piece of a split is the text before the first separator. */
  lemma {:induction false} SplitHead(a: string, rest: string, c: char)
    requires c !in a
    ensures Split(a + [c] + rest, c)[0] == a
    decreases |a|
  {
    if a == [] {
      assert a + [c] + rest == [c] + rest;
      SplitCons(c, rest, c);
    } else {
      assert c !in a[1..] by {
        assert forall k :: 0 <= k < |a[1..]| ==> a[1..][k] == a[k + 1];
      }
      SplitHead(a[1..], rest, c);
      assert a + [c] + rest == [a[0]] + (a[1..] + [c] + rest);
      SplitCons(a[0], a[1..] + [c] + rest, c);
      assert a == [a[0]] + a[1..];
    }
  }

  /** Splitting at the first separator: the text before it is the first
      piece and the pieces of the rest follow. */
  lemma {:induction false} SplitAfter(a: string, rest: string, c: char)
    requires c !in a
    ensures Split(a + [c] + rest, c) == [a] + Split(rest, c)
    decreases |a|
  {
    if a == [] {
      assert a + [c] + rest == [c] + rest;
      SplitCons(c, rest, c);
    } else {
      assert c !in a[1..] by {
        assert forall k :: 0 <= k < |a[1..]| ==> a[1..][k] == a[k + 1];
      }
      SplitAfter(a[1..], rest, c);
      assert a + [c] + rest == [a[0]] + (a[1..] + [c] + rest);
      SplitCons(a[0], a[1..] + [c] + rest, c);
      assert a == [a[0]] + a[1..];
    }
  }

  /** Split of a text with one more character in front. */
  lemma SplitCons(ch: char, s: string, c: char)
    ensures Split([ch] + s, c)
         == if ch == c then [""] + Split(s, c) else [[ch] + Split(s, c)[0]] + Split(s, c)[1..]
  {
    assert ([ch] + s)[1..] == s;
  }

  lemma {:induction false} NoSeparatorSplit(s: string, c: char)
    requires c !in s
    ensures Split(s, c) == [s]
    decreases |s|
  {
    if s != [] {
      assert s[0] != c;
      assert c !in s[1..] by {
        forall k | 0 <= k < |s[1..]| ensures s[1..][k] != c { assert s[1..][k] == s[k + 1]; }
      }
      NoSeparatorSplit(s[1..], c);
      assert [s[0]] + s[1..] == s;
    }
  }

  /** Index of the first `c` in `s`, or |s| when there is none. */
  function IndexOf(s: string, c: char): (i: nat)
    ensures i <= |s|
    ensures i < |s| ==> s[i] == c
    ensures c !in s[..i]
    ensures i == |s| <==> c !in s
    decreases |s|
  {
    if s == [] then 0
    else if s[0] == c then 0
    else
      var j := IndexOf(s[1..], c);
      assert s[..j + 1] == [s[0]] + s[1..][..j];
      j + 1
  }

  /** `s.Split(c, 2)`: the text before the first `c` and, if there is one, everything after it. */
  function SplitTwo(s: string, c: char): (parts: seq<string>)
    ensures 1 <= |parts| <= 2
  {
    var i := IndexOf(s, c);
    if i == |s| then [s] else [s[..i], s[i + 1..]]
  }

  /** The two-way split agrees with the full split: same head, and the tail is
      the rest of the full split joined back together, separators included. */
  lemma {:induction false} SplitTwoAgrees(s: string, c: char)
    ensures SplitTwo(s, c)[0] == Split(s, c)[0]
    ensures |SplitTwo(s, c)| == 2 <==> |Split(s, c)| >= 2
    ensures |SplitTwo(s, c)| == 2 ==> SplitTwo(s, c)[1] == Join(Split(s, c)[1..], c)
    decreases |s|
  {
    if s != [] && s[0] != c {
      SplitTwoAgrees(s[1..], c);
      var i := IndexOf(s[1..], c);
      assert IndexOf(s, c) == i + 1;
      var rest := Split(s[1..], c);
      assert Split(s, c)[1..] == rest[1..];
      if i < |s[1..]| {
        assert s[i + 2..] == s[1..][i + 1..];
        assert s[..i + 1] == [s[0]] + s[1..][..i];
      }
    } else if s != [] {
      var rest := Split(s[1..], c);
      assert Split(s, c)[1..] == rest;
      JoinSplit(s[1..], c);
    }
  }

  // ---------------------------------------------------------------------------
  // Trim, case and substring tests

  /** `char.IsWhiteSpace`: the Unicode characters of category Zs, Zl, Zp and
      the control characters U+0009..U+000D and U+0085. */
  predicate IsWhiteSpace(ch: char)
  {
    ('\U{0009}' <= ch <= '\U{000D}') || ch == ' ' || ch == '\U{0085}' || ch == '\U{00A0}'
    || ch == '\U{1680}' || ('\U{2000}' <= ch <= '\U{200A}') || ch == '\U{2028}' || ch == '\U{2029}'
    || ch == '\U{202F}' || ch == '\U{205F}' || ch == '\U{3000}'
  }

  function TrimStart(s: string): (r: string)
    decreases |s|
  {
    if s != [] && IsWhiteSpace(s[0]) then TrimStart(s[1..]) else s
  }

  function TrimEnd(s: string): (r: string)
    decreases |s|
  {
    if s != [] && IsWhiteSpace(s[|s| - 1]) then TrimEnd(s[..|s| - 1]) else s
  }

  /** `s.Trim()`. */
  function Trim(s: string): (r: string)
  {
    TrimEnd(TrimStart(s))
  }

  /** TrimStart cuts a prefix of white space and stops at the first other character. */
  lemma {:induction false} TrimStartShape(s: string)
    ensures var r := TrimStart(s); |r| <= |s| && r == s[|s| - |r|..]
    ensures TrimStart(s) == [] || !IsWhiteSpace(TrimStart(s)[0])
    ensures forall k :: 0 <= k < |s| - |TrimStart(s)| ==> IsWhiteSpace(s[k])
    decreases |s|
  {
    if s != [] && IsWhiteSpace(s[0]) {
      TrimStartShape(s[1..]);
      assert forall k :: 1 <= k < |s| ==> s[k] == s[1..][k - 1];
    }
  }

  /** TrimEnd cuts a suffix of white space and stops at the last other character. */
  lemma {:induction false} TrimEndShape(s: string)
    ensures var r := TrimEnd(s); |r| <= |s| && r == s[..|r|]
    ensures TrimEnd(s) == [] || !IsWhiteSpace(TrimEnd(s)[|TrimEnd(s)| - 1])
    ensures forall k :: |TrimEnd(s)| <= k < |s| ==> IsWhiteSpace(s[k])
    decreases |s|
  {
    if s != [] && IsWhiteSpace(s[|s| - 1]) {
      TrimEndShape(s[..|s| - 1]);
    }
  }

  /** Trim gives the infix of `s` left after cutting white space at both ends:
      it neither starts nor ends with white space, and everything cut was white space. */
  lemma TrimShape(s: string)
    ensures |TrimStart(s)| <= |s|
    ensures var i, r := |s| - |TrimStart(s)|, Trim(s); i + |r| <= |s| && r == s[i..i + |r|]
    ensures Trim(s) == [] || (!IsWhiteSpace(Trim(s)[0]) && !IsWhiteSpace(Trim(s)[|Trim(s)| - 1]))
    ensures forall k :: 0 <= k < |s| - |TrimStart(s)| ==> IsWhiteSpace(s[k])
    ensures forall k :: |s| - |TrimStart(s)| + |Trim(s)| <= k < |s| ==> IsWhiteSpace(s[k])
  {
    var t := TrimStart(s);
    TrimStartShape(s);
    TrimEndShape(t);
    var i := |s| - |t|;
    forall k | i + |Trim(s)| <= k < |s| ensures IsWhiteSpace(s[k]) {
      assert s[k] == t[k - i];
    }
  }

  /** Trimming twice is trimming once. */
  lemma TrimIdempotent(s: string)
    ensures Trim(Trim(s)) == Trim(s)
  {
    TrimShape(s);
    var r := Trim(s);
    assert TrimStart(r) == r;
    assert TrimEnd(r) == r;
  }

  /** `char.ToLower` on the ASCII letters, which are all the commands use. */
  function LowerChar(ch: char): (r: char)
  {
    if 'A' <= ch <= 'Z' then (ch as int + 32) as char else ch
  }

  /** `s.ToLower()`, letter by letter. */
  function ToLower(s: string): (r: string)
    ensures |r| == |s|
    ensures forall i :: 0 <= i < |r| ==> !('A' <= r[i] <= 'Z')
    ensures forall i :: 0 <= i < |r| ==> r[i] == LowerChar(s[i])
    decreases |s|
  {
    if s == [] then [] else [LowerChar(s[0])] + ToLower(s[1..])
  }

  /** Text without an upper-case ASCII letter is its own lower-case form. */
  lemma {:induction false} ToLowerFixed(s: string)
    requires forall i :: 0 <= i < |s| ==> !('A' <= s[i] <= 'Z')
    ensures ToLower(s) == s
    decreases |s|
  {
    if s != [] { ToLowerFixed(s[1..]); }
  }

  predicate StartsWith(s: string, prefix: string)
  {
    |prefix| <= |s| && s[..|prefix|] == prefix
  }

  /** `p` occurs in `s` at index `i`. */
  predicate OccursAt(s: string, p: string, i: int)
  {
    0 <= i <= |s| - |p| && s[i..i + |p|] == p
  }

  /** `s.Contains(p)` (ordinal). */
  function Contains(s: string, p: string): (r: bool)
    ensures r <==> exists i :: OccursAt(s, p, i)
    decreases |s|
  {
    if StartsWith(s, p) then
      assert OccursAt(s, p, 0);
      true
    else if s == [] then
      assert forall i :: !OccursAt(s, p, i);
      false
    else
      var r := Contains(s[1..], p);
      assert forall i :: OccursAt(s, p, i) <==> (i > 0 && OccursAt(s[1..], p, i - 1)) by {
        forall i ensures OccursAt(s, p, i) <==> (i > 0 && OccursAt(s[1..], p, i - 1)) {
          if 1 <= i <= |s| - |p| {
            var here, there := s[i..i + |p|], s[1..][i - 1..i - 1 + |p|];
            assert |here| == |there|;
            forall k | 0 <= k < |p| ensures here[k] == there[k] {
              assert here[k] == s[i + k];
            }
            assert here == there;
          }
          if i == 0 && |p| <= |s| { assert s[0..|p|] == s[..|p|]; }
        }
      }
      assert r ==> exists i :: OccursAt(s, p, i) by {
        if r {
          var i :| OccursAt(s[1..], p, i);
          assert OccursAt(s, p, i + 1);
        }
      }
      r
  }

  /** `s.Replace(" ", "")` for a one-character needle `c`. */
  function RemoveChar(s: string, c: char): (r: string)
    ensures c !in r
    ensures forall ch :: ch in r ==> ch in s
    decreases |s|
  {
    if s == [] then [] else (if s[0] == c then [] else [s[0]]) + RemoveChar(s[1..], c)
  }

  /** `s.Replace(",", ".")` for one-character needle and replacement. */
  function ReplaceChar(s: string, a: char, b: char): (r: string)
    ensures |r| == |s|
    ensures forall i :: 0 <= i < |s| ==> r[i] == (if s[i] == a then b else s[i])
    decreases |s|
  {
    if s == [] then [] else [if s[0] == a then b else s[0]] + ReplaceChar(s[1..], a, b)
  }

  /** Removing a character works piecewise: on a concatenation it is the
      concatenation of the two removals. */
  lemma {:induction false} RemoveCharAppend(a: string, b: string, c: char)
    ensures RemoveChar(a + b, c) == RemoveChar(a, c) + RemoveChar(b, c)
    decreases |a|
  {
    if a == [] {
      assert a + b == b;
    } else {
      assert (a + b)[0] == a[0];
      assert (a + b)[1..] == a[1..] + b;
      RemoveCharAppend(a[1..], b, c);
    }
  }

  /** On one character, removal drops exactly that character and keeps any other. */
  lemma RemoveCharSingle(x: char, c: char)
    ensures RemoveChar([x], c) == if x == c then [] else [x]
  {
    assert [x][1..] == [];
  }

  /** A string without the character is left as it is. */
  lemma {:induction false} RemoveCharAbsent(s: string, c: char)
    requires c !in s
    ensures RemoveChar(s, c) == s
    decreases |s|
  {
    if s != [] {
      assert s[0] in s;
      assert forall ch :: ch in s[1..] ==> ch in s;
      RemoveCharAbsent(s[1..], c);
      assert s == [s[0]] + s[1..];
    }
  }

  /** Replacement works piecewise as well. */
  lemma ReplaceCharAppend(a: string, b: string, x: char, y: char)
    ensures ReplaceChar(a + b, x, y) == ReplaceChar(a, x, y) + ReplaceChar(b, x, y)
  {
    var l, r := ReplaceChar(a + b, x, y), ReplaceChar(a, x, y) + ReplaceChar(b, x, y);
    forall i | 0 <= i < |l| ensures l[i] == r[i] {
      if i < |a| { assert (a + b)[i] == a[i]; } else { assert (a + b)[i] == b[i - |a|]; }
    }
  }

  /** A string without the replaced character is left as it is. */
  lemma ReplaceCharAbsent(s: string, a: char, b: char)
    requires a !in s
    ensures ReplaceChar(s, a, b) == s
  {
    var r := ReplaceChar(s, a, b);
    forall i | 0 <= i < |s| ensures r[i] == s[i] {
      assert s[i] in s;
    }
  }

  // ---------------------------------------------------------------------------
  // Decimal rendering of ids and long.TryParse

  predicate IsDigit(ch: char) { '0' <= ch <= '9' }

  predicate AllDigits(s: string) { forall i :: 0 <= i < |s| ==> IsDigit(s[i]) }

  function DigitChar(d: nat): (r: char)
    requires d < 10
  {
    ('0' as int + d) as char
  }

  /** Base-10 digits of a natural number, most significant first, no leading zero. */
  function NatDigits(n: nat): (r: string)
    ensures |r| >= 1 && AllDigits(r)
    ensures |r| > 1 ==> r[0] != '0'
    decreases n
  {
    if n < 10 then [DigitChar(n)] else NatDigits(n / 10) + [DigitChar(n % 10)]
  }

  /** The value of a string of digits. */
  function Abs(n: int): (r: nat) { if n < 0 then -n else n }

  function DigitsValue(s: string): (r: nat)
    requires AllDigits(s)
    decreases |s|
  {
    if s == [] then 0 else DigitsValue(s[..|s| - 1]) * 10 + (s[|s| - 1] as int - '0' as int)
  }

  lemma {:induction false} DigitsValueOfNatDigits(n: nat)
    ensures DigitsValue(NatDigits(n)) == n
    decreases n
  {
    if n >= 10 {
      DigitsValueOfNatDigits(n / 10);
      var s := NatDigits(n);
      assert s[..|s| - 1] == NatDigits(n / 10);
    }
  }

  /** `n.ToString()` for a `long` with the invariant culture. */
  function Dec(n: int): (r: string)
    ensures |r| >= 1
    ensures ':' !in r && ' ' !in r
  {
    var r := if n < 0 then "-" + NatDigits(Abs(n)) else NatDigits(n);
    assert forall i :: 0 <= i < |r| ==> r[i] == '-' || IsDigit(r[i]);
    r
  }

  /** Dec is injective: distinct ids render to distinct strings. */
  lemma DecInjective(m: int, n: int)
    ensures Dec(m) == Dec(n) ==> m == n
  {
    if Dec(m) == Dec(n) {
      DigitsValueOfNatDigits(Abs(m));
      DigitsValueOfNatDigits(Abs(n));
      if m < 0 && n < 0 {
        assert NatDigits(Abs(m)) == Dec(m)[1..] == Dec(n)[1..] == NatDigits(Abs(n));
      }
    }
  }

  /** White space that .NET number parsing skips (AllowLeadingWhite / AllowTrailingWhite). */
  predicate IsNumberWhite(ch: char) { '\U{0009}' <= ch <= '\U{000D}' || ch == ' ' }

  function SkipLeadingWhite(s: string): (r: string)
    decreases |s|
  {
    if s != [] && IsNumberWhite(s[0]) then SkipLeadingWhite(s[1..]) else s
  }

  function SkipTrailingWhite(s: string): (r: string)
    decreases |s|
  {
    if s != [] && IsNumberWhite(s[|s| - 1]) then SkipTrailingWhite(s[..|s| - 1]) else s
  }

  predicate InLongRange(n: int) { -0x8000_0000_0000_0000 <= n < 0x8000_0000_0000_0000 }

  /** `long.TryParse(s, out v)` with NumberStyles.Integer: optional white space,
      an optional sign, at least one digit, optional white space, and a value
      that fits in 64 bits. */
  function ParseLong(s: string): (r: Option<Long>)
  {
    ParseSigned(SkipTrailingWhite(SkipLeadingWhite(s)))
  }

  /** The sign-and-digits part of ParseLong. */
  function ParseSigned(t: string): (r: Option<Long>)
  {
    if |t| >= 1 && t[0] == '-' then
      if |t| >= 2 && AllDigits(t[1..]) && InLongRange(-(DigitsValue(t[1..]) as int))
      then Some(-(DigitsValue(t[1..]) as int)) else None
    else
      var body := if |t| >= 1 && t[0] == '+' then t[1..] else t;
      if |body| >= 1 && AllDigits(body) && InLongRange(DigitsValue(body))
      then Some(DigitsValue(body)) else None
  }

  /** long.TryParse reads back every rendered id. */
  lemma ParseDec(n: Long)
    ensures ParseLong(Dec(n)) == Some(n)
  {
    var d := NatDigits(Abs(n));
    DigitsValueOfNatDigits(Abs(n));
    var s := Dec(n);
    assert !IsNumberWhite(s[0]) && !IsNumberWhite(s[|s| - 1]);
    assert SkipLeadingWhite(s) == s;
    assert SkipTrailingWhite(s) == s;
    if n < 0 {
      assert s[1..] == d;
      assert ParseSigned(s) == Some(n);
    } else {
      assert s == d;
      assert ParseSigned(s) == Some(n);
    }
  }

  /** An id set member is read back as the same id, and no other. */
  lemma ParseDecExactly(n: Long, m: Long)
    ensures ParseLong(Dec(n)) == Some(m) <==> n == m
  {
    ParseDec(n);
  }
}
