/**
 * String primitives used by the console-line classifier: the JavaScript
 * string operations the client relies on (`startsWith`, `includes`,
 * `split(sep)[0]`, `trim`, ASCII `toLowerCase`) and the character classes
 * of the regular expressions it matches with (`\d`, `\w`, `\s`, ...).
 */
module Text {

  datatype Option<+T> = None | Some(value: T)

  /** `\s` of JavaScript regular expressions: the characters `String.prototype.trim` removes. */
  predicate IsSpace(c: char)
  {
    c == '\t' || c == '\n' || c == '\U{000B}' || c == '\U{000C}' || c == '\r' || c == ' '
    || c == '\U{00A0}' || c == '\U{1680}' || ('\U{2000}' <= c <= '\U{200A}')
    || c == '\U{2028}' || c == '\U{2029}' || c == '\U{202F}' || c == '\U{205F}'
    || c == '\U{3000}' || c == '\U{FEFF}'
  }

  /** The characters `.` refuses to match: the JavaScript line terminators. */
  predicate IsLineTerminator(c: char)
  {
    c == '\n' || c == '\r' || c == '\U{2028}' || c == '\U{2029}'
  }

  predicate IsDigit(c: char) { '0' <= c <= '9' }

  /** `\w`: ASCII letters, digits and the underscore. */
  predicate IsWordChar(c: char)
  {
    ('a' <= c <= 'z') || ('A' <= c <= 'Z') || IsDigit(c) || c == '_'
  }

  /** The bracket-free character classes that occur in the console patterns. */
  datatype CharClass =
    | Digit             // \d
    | Word              // \w
    | WordSpaceDash     // [\w\s_-], [\w\d\s_-], [\w\s\-_]
    | DecimalChar       // [\d.]
    | SignedDecimalChar // [-\d.]
    | AllBut(c: char)   // [^c]
    | InLine            // .
    | Space             // \s
    | AnyChar           // [\s\S]

  predicate InClass(cc: CharClass, c: char)
  {
    match cc
    case Digit => IsDigit(c)
    case Word => IsWordChar(c)
    case WordSpaceDash => IsWordChar(c) || IsSpace(c) || c == '-'
    case DecimalChar => IsDigit(c) || c == '.'
    case SignedDecimalChar => IsDigit(c) || c == '.' || c == '-'
    case AllBut(x) => c != x
    case InLine => !IsLineTerminator(c)
    case Space => IsSpace(c)
    case AnyChar => true
  }

  predicate AllIn(cc: CharClass, s: string)
  {
    forall k :: 0 <= k < |s| ==> InClass(cc, s[k])
  }

  /** End of the longest run of `cc` characters starting at `i` (what a greedy `cc*` consumes). */
  function RunEnd(s: string, i: nat, cc: CharClass): (e: nat)
    requires i <= |s|
    ensures i <= e <= |s|
    ensures AllIn(cc, s[i..e])
    ensures e < |s| ==> !InClass(cc, s[e])
    decreases |s| - i
  {
    if i == |s| || !InClass(cc, s[i]) then i
    else
      var e := RunEnd(s, i + 1, cc);
      assert s[i..e] == [s[i]] + s[i + 1..e];
      e
  }

  /** Start of the longest run of `cc` characters ending at `j`. */
  function RunStart(s: string, j: nat, cc: CharClass): (b: nat)
    requires j <= |s|
    ensures b <= j
    ensures forall k :: b <= k < j ==> InClass(cc, s[k])
    ensures b > 0 ==> !InClass(cc, s[b - 1])
  {
    if j == 0 || !InClass(cc, s[j - 1]) then j else RunStart(s, j - 1, cc)
  }

  predicate StartsWith(s: string, p: string)
  {
    |p| <= |s| && s[..|p|] == p
  }

  predicate EndsWith(s: string, p: string)
  {
    |p| <= |s| && s[|s| - |p|..] == p
  }

  predicate OccursAt(s: string, p: string, i: nat)
  {
    i + |p| <= |s| && s[i..i + |p|] == p
  }

  /** A one-character text occurs where `s` holds that character. */
  lemma CharAt(s: string, c: char, j: nat)
    ensures OccursAt(s, [c], j) <==> j < |s| && s[j] == c
  {
    if j < |s| {
      assert s[j..j + 1] == [s[j]];
    }
  }

  /** The first occurrence of `p` in `s` at or after `i` (`indexOf(p, i)`). */
  function IndexFrom(s: string, p: string, i: nat): (r: Option<nat>)
    requires i <= |s|
    ensures r.Some? ==> i <= r.value && OccursAt(s, p, r.value)
    ensures r.Some? ==> forall j :: i <= j < r.value ==> !OccursAt(s, p, j)
    ensures r.None? ==> forall j :: i <= j <= |s| ==> !OccursAt(s, p, j)
    decreases |s| - i
  {
    if OccursAt(s, p, i) then Some(i)
    else if i == |s| then None
    else IndexFrom(s, p, i + 1)
  }

  /** `s.includes(p)` */
  predicate Contains(s: string, p: string)
  {
    IndexFrom(s, p, 0).Some?
  }

  lemma ContainsIffOccurs(s: string, p: string)
    ensures Contains(s, p) <==> exists j :: OccursAt(s, p, j)
  {
    var r := IndexFrom(s, p, 0);
    if r.Some? {
      assert OccursAt(s, p, r.value);
    } else {
      assert forall j: nat :: OccursAt(s, p, j) ==> j <= |s|;
    }
  }

  /** `r` is `t.split(sep)[0]`: a prefix of `t` in which `sep` does not begin, ending where
      `sep` first begins or at the end of `t`. */
  predicate IsFirstPart(t: string, sep: string, r: string)
  {
    && |r| <= |t| && r == t[..|r|]
    && (forall j :: 0 <= j < |r| ==> !OccursAt(t, sep, j))
    && (OccursAt(t, sep, |r|) || r == t)
  }

  /** `r` is `s.split(sep)[1]`: `s` is its first part, `sep`, and a remainder whose first part is `r`. */
  ghost predicate IsSecondPart(s: string, sep: string, r: string)
  {
    exists a, t :: s == a + sep + t && IsFirstPart(s, sep, a) && IsFirstPart(t, sep, r)
  }

  /** `s.split(sep)[0]`: the text before the first `sep`, or all of `s` when there is none. */
  function Before(s: string, sep: string): (r: string)
    ensures IsFirstPart(s, sep, r)
    ensures Contains(s, sep) ==> OccursAt(s, sep, |r|)
    ensures !Contains(s, sep) ==> r == s
  {
    match IndexFrom(s, sep, 0)
    case Some(i) => s[..i]
    case None => s
  }

  /** What follows the first `sep` in `s`. */
  function After(s: string, sep: string): (r: string)
    requires Contains(s, sep)
    ensures s == Before(s, sep) + sep + r
  {
    var i := IndexFrom(s, sep, 0).value;
    assert s == s[..i] + s[i..i + |sep|] + s[i + |sep|..];
    s[i + |sep|..]
  }

  /** `s.split(sep)[1]`, for an `s` that contains `sep`. */
  function SecondPart(s: string, sep: string): (r: string)
    requires Contains(s, sep)
    ensures IsSecondPart(s, sep, r)
  {
    var a, t := Before(s, sep), After(s, sep);
    Before(t, sep)
  }

  /** `String.prototype.trim`: the text between the leading and the trailing run of `\s`. */
  function Trim(s: string): (r: string)
    ensures r == [] || (!IsSpace(r[0]) && !IsSpace(r[|r| - 1]))
  {
    var i := RunEnd(s, 0, Space);
    var j := RunStart(s, |s|, Space);
    if i < j then s[i..j] else []
  }

  /** A slice is the slice up to a cut followed by the slice from it. */
  lemma SliceJoin(s: string, a: nat, b: nat, c: nat)
    requires a <= b <= c <= |s|
    ensures s[a..c] == s[a..b] + s[b..c]
  {
  }

  /** Trimming drops exactly leading and trailing white space: the result is a slice of the
      input, and everything before and after that slice is white space. */
  lemma TrimIsSlice(s: string)
    ensures exists i, j ::
      && 0 <= i <= j <= |s| && Trim(s) == s[i..j]
      && (forall k :: 0 <= k < i ==> IsSpace(s[k]))
      && (forall k :: j <= k < |s| ==> IsSpace(s[k]))
  {
    var i := RunEnd(s, 0, Space);
    var j := RunStart(s, |s|, Space);
    assert forall k :: 0 <= k < i ==> s[0..i][k] == s[k];
    if i < j {
      assert Trim(s) == s[i..j];
    } else {
      assert Trim(s) == s[i..i];
      if i < |s| {
        assert false;
      }
    }
  }

  /** The run found by `RunEnd` is the only one that ends where the class stops. */
  lemma {:induction false} RunEndUnique(s: string, i: nat, cc: CharClass, e: nat)
    requires i <= e <= |s| && AllIn(cc, s[i..e]) && (e < |s| ==> !InClass(cc, s[e]))
    ensures RunEnd(s, i, cc) == e
    decreases e - i
  {
    if i < e {
      var u, v := s[i..e], s[i + 1..e];
      assert u[0] == s[i];
      assert forall k :: 0 <= k < |v| ==> v[k] == u[k + 1];
      RunEndUnique(s, i + 1, cc, e);
    }
  }

  lemma {:induction false} RunStartUnique(s: string, j: nat, cc: CharClass, b: nat)
    requires b <= j <= |s| && (forall k :: b <= k < j ==> InClass(cc, s[k])) && (b > 0 ==> !InClass(cc, s[b - 1]))
    ensures RunStart(s, j, cc) == b
    decreases j - b
  {
    if b < j {
      RunStartUnique(s, j - 1, cc, b);
    }
  }

  /** White space around a text does not change what `trim` leaves of it. */
  lemma TrimPadding(a: string, b: string, c: string)
    requires AllIn(Space, a) && AllIn(Space, c)
    ensures Trim(a + b + c) == Trim(b)
  {
    var t := a + b + c;
    TrimEmptyIffBlank(b);
    TrimEmptyIffBlank(t);
    if Trim(b) != [] {
      TrimPaddingCut(a, b, c);
    } else {
      forall k | 0 <= k < |t| ensures IsSpace(t[k]) {
        if k < |a| { assert t[k] == a[k]; }
        else if k < |a| + |b| { assert t[k] == b[k - |a|]; }
        else { assert t[k] == c[k - |a| - |b|]; }
      }
    }
  }

  /** The leading white space of a padded non-blank text is the padding and the text's own. */
  lemma PaddedStart(a: string, b: string, c: string)
    requires AllIn(Space, a) && Trim(b) != []
    ensures RunEnd(b, 0, Space) < |b| && RunEnd(a + b + c, 0, Space) == |a| + RunEnd(b, 0, Space)
  {
    hide IsSpace;
    var t, ib := a + b + c, RunEnd(b, 0, Space);
    assert ib < RunStart(b, |b|, Space);
    assert forall k :: 0 <= k < |b| ==> t[|a| + k] == b[k];
    var pre, bpre := t[0..|a| + ib], b[0..ib];
    assert AllIn(Space, pre) by {
      forall k | 0 <= k < |pre| ensures IsSpace(pre[k]) {
        if k < |a| { assert pre[k] == a[k]; } else { assert pre[k] == bpre[k - |a|]; }
      }
    }
    RunEndUnique(t, 0, Space, |a| + ib);
  }

  /** The trailing white space of a padded non-blank text is the text's own and the padding. */
  lemma PaddedEnd(a: string, b: string, c: string)
    requires AllIn(Space, c) && Trim(b) != []
    ensures RunStart(a + b + c, |a + b + c|, Space) == |a| + RunStart(b, |b|, Space)
  {
    hide IsSpace;
    var t, jb := a + b + c, RunStart(b, |b|, Space);
    assert RunEnd(b, 0, Space) < jb;
    assert forall k :: |a| + jb <= k < |t| ==> IsSpace(t[k]) by {
      forall k | |a| + jb <= k < |t| ensures IsSpace(t[k]) {
        if k < |a| + |b| { assert t[k] == b[k - |a|]; } else { assert t[k] == c[k - |a| - |b|]; }
      }
    }
    assert t[|a| + jb - 1] == b[jb - 1];
    RunStartUnique(t, |t|, Space, |a| + jb);
  }

  /** Where the trimmed part of a padded non-blank text lies. */
  lemma TrimPaddingCut(a: string, b: string, c: string)
    requires AllIn(Space, a) && AllIn(Space, c) && Trim(b) != []
    ensures Trim(a + b + c) == Trim(b)
  {
    hide IsSpace, AllIn, RunEnd, RunStart, Trim;
    var t := a + b + c;
    var ib, jb := RunEnd(b, 0, Space), RunStart(b, |b|, Space);
    PaddedRuns(a, b, c);
    TrimIs(b, ib, jb);
    TrimIs(t, |a| + ib, |a| + jb);
    MiddleSlice(a, b, c, ib, jb);
  }

  /** Padding shifts both white space runs of `b` by the length of `a`. */
  lemma PaddedRuns(a: string, b: string, c: string)
    requires AllIn(Space, a) && AllIn(Space, c) && Trim(b) != []
    ensures var t, ib, jb := a + b + c, RunEnd(b, 0, Space), RunStart(b, |b|, Space);
      ib < jb <= |b| && RunEnd(t, 0, Space) == |a| + ib && RunStart(t, |t|, Space) == |a| + jb
  {
    hide IsSpace, AllIn;
    PaddedStart(a, b, c);
    PaddedEnd(a, b, c);
  }

  /** The trimmed string between the ends of the leading and trailing white space runs. */
  lemma TrimIs(s: string, i: nat, j: nat)
    requires i < j <= |s| && RunEnd(s, 0, Space) == i && RunStart(s, |s|, Space) == j
    ensures Trim(s) == s[i..j]
  {
  }

  /** A slice of the middle part of a concatenation. */
  lemma MiddleSlice(a: string, b: string, c: string, i: nat, j: nat)
    requires i <= j <= |b|
    ensures (a + b + c)[|a| + i..|a| + j] == b[i..j]
  {
    var t := a + b + c;
    var u := t[|a| + i..|a| + j];
    assert forall k :: 0 <= k < |u| ==> u[k] == b[i + k];
  }

  /** A trimmed string is empty exactly when the input is white space only. */
  lemma TrimEmptyIffBlank(s: string)
    ensures Trim(s) == [] <==> forall k :: 0 <= k < |s| ==> IsSpace(s[k])
  {
    var i := RunEnd(s, 0, Space);
    assert forall k :: 0 <= k < i ==> s[0..i][k] == s[k];
    if i < |s| {
      assert !IsSpace(s[i]);
      var j := RunStart(s, |s|, Space);
      assert i < j;
      assert Trim(s)[0] == s[i];
    }
  }

  function LowerChar(c: char): char
  {
    if 'A' <= c <= 'Z' then (c as int - 'A' as int + 'a' as int) as char else c
  }

  /** `toLowerCase` on ASCII letters; every other character is left alone. */
  function ToLower(s: string): (r: string)
    ensures |r| == |s|
    ensures forall k :: 0 <= k < |s| ==> r[k] == LowerChar(s[k])
  {
    if s == [] then [] else [LowerChar(s[0])] + ToLower(s[1..])
  }

  predicate IsLower(s: string)
  {
    forall k :: 0 <= k < |s| ==> !('A' <= s[k] <= 'Z')
  }

  lemma {:induction false} ToLowerOfLower(s: string)
    requires IsLower(s)
    ensures ToLower(s) == s
  {
    if s != [] {
      ToLowerOfLower(s[1..]);
    }
  }

  /** The exact value of a string of decimal digits: what `parseInt(s, 10)` and `Number(s)` give
      while it stays below 2^53, where doubles start to round. */
  function DigitsValue(s: string): (n: nat)
    requires AllIn(Digit, s)
    ensures s == [] ==> n == 0
  {
    if s == [] then 0 else DigitsValue(s[..|s| - 1]) * 10 + (s[|s| - 1] as int - '0' as int)
  }

  /** Two digit strings of equal length denote the same number only when they are equal. */
  lemma {:induction false} DigitsValueInjective(s: string, t: string)
    requires AllIn(Digit, s) && AllIn(Digit, t) && |s| == |t|
    requires DigitsValue(s) == DigitsValue(t)
    ensures s == t
  {
    if s != [] {
      var a, b := s[..|s| - 1], t[..|t| - 1];
      var x, y := s[|s| - 1] as int - '0' as int, t[|t| - 1] as int - '0' as int;
      assert DigitsValue(a) * 10 + x == DigitsValue(b) * 10 + y;
      assert x == y && DigitsValue(a) == DigitsValue(b);
      DigitsValueInjective(a, b);
      assert s == a + [s[|s| - 1]] && t == b + [t[|t| - 1]];
    }
  }

  /** `text.split("\n")` for a one-character separator. */
  function SplitOn(s: string, sep: char): (r: seq<string>)
    ensures |r| >= 1
    ensures forall k :: 0 <= k < |r| ==> sep !in r[k]
  {
    if s == [] then [[]]
    else
      var rest := SplitOn(s[1..], sep);
      if s[0] == sep then [[]] + rest
      else [[s[0]] + rest[0]] + rest[1..]
  }

  function JoinWith(parts: seq<string>, sep: char): string
    requires |parts| >= 1
  {
    if |parts| == 1 then parts[0] else parts[0] + [sep] + JoinWith(parts[1..], sep)
  }

  /** Splitting loses nothing: joining the pieces with the separator gives the text back. */
  lemma {:induction false} SplitJoin(s: string, sep: char)
    ensures JoinWith(SplitOn(s, sep), sep) == s
  {
    if s != [] {
      SplitJoin(s[1..], sep);
      var rest := SplitOn(s[1..], sep);
      if s[0] == sep {
        assert s == [sep] + s[1..];
      } else {
        var r := SplitOn(s, sep);
        if |rest| == 1 {
          assert r == [[s[0]] + rest[0]];
        } else {
          assert r[1..] == rest[1..];
          assert JoinWith(r, sep) == [s[0]] + rest[0] + [sep] + JoinWith(rest[1..], sep);
        }
      }
    }
  }
}
