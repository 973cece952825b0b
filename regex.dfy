/**
 * A backtracking matcher for the fragment of JavaScript regular expressions that the
 * console patterns are written in: literals (optionally ASCII case-insensitive, the `i`
 * flag), single characters of a class, greedy and lazy `*`/`+` runs of a class, ordered
 * alternatives of alternative-free sequences (`a|b`, `x?`), `\b` and `$`. A match records
 * the position between every two top-level pieces, so a capture group that spans pieces
 * `a` to `b` is the text between positions `a` and `b`.
 *
 * `MatchAt` follows the engine's search order (greedy runs try their longest length
 * first, lazy runs their shortest, alternatives left to right), so the match it returns
 * is the one JavaScript reports; `Accepts` is the order-free meaning of a pattern, and
 * `MatchSound`/`MatchComplete` tie the two together.
 */
module Regex {
  import opened Text

  datatype Piece =
    | Lit(text: string)                             // a literal
    | LitNoCase(text: string)                       // a literal under the `i` flag
    | One(cc: CharClass)                            // one character of a class
    | Many(cc: CharClass, plus: bool, lazy: bool)   // cc*, cc+, cc*?, cc+?
    | Alt(options: seq<seq<Piece>>)                 // (?:o1|o2|...), tried in order
    | Boundary                                      // \b
    | End                                           // $ (no `m` flag)

  /** A sequence without alternatives. */
  predicate Plain(ps: seq<Piece>)
  {
    forall k :: 0 <= k < |ps| ==> !ps[k].Alt?
  }

  /** Alternatives hold alternative-free options only. */
  predicate WellFormed(ps: seq<Piece>)
  {
    forall k :: 0 <= k < |ps| ==> ps[k].Alt? ==> forall j :: 0 <= j < |ps[k].options| ==> Plain(ps[k].options[j])
  }

  function SumLengths(opts: seq<seq<Piece>>): (n: nat)
    ensures forall j :: 0 <= j < |opts| ==> |opts[j]| <= n
  {
    if opts == [] then 0 else |opts[0]| + SumLengths(opts[1..])
  }

  function Weight(p: Piece): nat
  {
    if p.Alt? then 1 + SumLengths(p.options) else 1
  }

  /** The termination measure of matching: an alternative outweighs each of its options. */
  function Size(ps: seq<Piece>): nat
  {
    if ps == [] then 0 else Weight(ps[0]) + Size(ps[1..])
  }

  lemma {:induction false} SizeAppend(a: seq<Piece>, b: seq<Piece>)
    requires Plain(a)
    ensures Size(a + b) == |a| + Size(b)
  {
    if a != [] {
      assert (a + b)[0] == a[0] && (a + b)[1..] == a[1..] + b;
      assert Plain(a[1..]) by {
        forall k | 0 <= k < |a| - 1 ensures a[1..][k] == a[k + 1] { }
      }
      SizeAppend(a[1..], b);
      assert !a[0].Alt?;
      assert Size(a + b) == Weight((a + b)[0]) + Size((a + b)[1..]);
    } else {
      assert a + b == b;
    }
  }

  /** Option `o` spliced in front of the rest of the pattern. */
  function Splice(o: seq<Piece>, rest: seq<Piece>): (r: seq<Piece>)
    requires Plain(o) && WellFormed(rest)
    ensures r == o + rest && WellFormed(r)
    ensures Size(r) == |o| + Size(rest)
  {
    SizeAppend(o, rest);
    o + rest
  }

  predicate FoldOccursAt(s: string, t: string, i: nat)
  {
    i + |t| <= |s| && forall k :: 0 <= k < |t| ==> LowerChar(s[i + k]) == LowerChar(t[k])
  }

  predicate IsBoundary(s: string, i: nat)
    requires i <= |s|
  {
    (i > 0 && IsWordChar(s[i - 1])) != (i < |s| && IsWordChar(s[i]))
  }

  /** The positions before each top-level piece and after the last one. */
  datatype Match = Match(pos: seq<nat>)
  {
    function End(): nat
      requires |pos| > 0
    {
      pos[|pos| - 1]
    }
  }

  /** `Match(pos)` with `i` put in front. */
  function Prepend(i: nat, r: Option<Match>): Option<Match>
  {
    match r
    case None => None
    case Some(m) => Some(Match([i] + m.pos))
  }

  /** `pos` has one position per piece boundary, starts at `i`, never moves backwards and
      stays within `s`. */
  predicate Positions(pos: seq<nat>, n: nat, i: nat, s: string)
  {
    && |pos| == n + 1 && pos[0] == i && pos[n] <= |s|
    && forall a, b :: 0 <= a <= b < |pos| ==> pos[a] <= pos[b]
  }

  /** Shortest and longest run a `Many` piece may take at `i`. */
  function RunLow(s: string, i: nat, plus: bool): nat
  {
    if plus then i + 1 else i
  }

  /** The match the backtracking engine finds for `ps` anchored at `i`. */
  function MatchAt(ps: seq<Piece>, s: string, i: nat): (r: Option<Match>)
    requires WellFormed(ps) && i <= |s|
    ensures r.Some? ==> Positions(r.value.pos, |ps|, i, s)
    decreases Size(ps), 2, 0
  {
    if ps == [] then Some(Match([i]))
    else
      var rest := ps[1..];
      assert WellFormed(rest) by {
        forall k | 0 <= k < |rest| ensures rest[k] == ps[k + 1] { }
      }
      match ps[0]
      case Lit(t) => if OccursAt(s, t, i) then Prepend(i, MatchAt(rest, s, i + |t|)) else None
      case LitNoCase(t) => if FoldOccursAt(s, t, i) then Prepend(i, MatchAt(rest, s, i + |t|)) else None
      case One(cc) => if i < |s| && InClass(cc, s[i]) then Prepend(i, MatchAt(rest, s, i + 1)) else None
      case Many(cc, plus, lazy) =>
        var lo, hi := RunLow(s, i, plus), RunEnd(s, i, cc);
        if hi < lo then None
        else if lazy then Prepend(i, Upward(rest, s, lo, hi))
        else Prepend(i, Downward(rest, s, lo, hi))
      case Alt(opts) => Prepend(i, FirstOption(opts, 0, rest, s, i))
      case Boundary => if IsBoundary(s, i) then Prepend(i, MatchAt(rest, s, i)) else None
      case End => if i == |s| then Prepend(i, MatchAt(rest, s, i)) else None
  }

  /** A single literal matches exactly where it occurs. */
  lemma LitAlone(s: string, t: string, i: nat)
    requires WellFormed([Lit(t)]) && i <= |s|
    ensures MatchAt([Lit(t)], s, i).Some? <==> OccursAt(s, t, i)
  {
    assert [Lit(t)][1..] == [];
  }

  /** A span at none of whose positions the one-character literal `c` matches holds no `c`. */
  lemma NoLitIn(s: string, c: char, a: nat, b: nat)
    requires a <= b <= |s|
    requires forall q :: a <= q < b ==> q <= |s| && MatchAt([Lit([c])], s, q).None?
    ensures c !in s[a..b]
  {
    forall j | 0 <= j < b - a ensures s[a..b][j] != c {
      CharAt(s, c, a + j);
      LitAlone(s, [c], a + j);
    }
  }

  /** A greedy run: try the rest after `j`, `j - 1`, ..., `lo`. */
  function Downward(rest: seq<Piece>, s: string, lo: nat, j: nat): (r: Option<Match>)
    requires WellFormed(rest) && lo <= j <= |s|
    ensures r.Some? ==> |r.value.pos| > 0 && lo <= r.value.pos[0] <= j && Positions(r.value.pos, |rest|, r.value.pos[0], s)
    decreases Size(rest) + 1, 1, j - lo
  {
    match MatchAt(rest, s, j)
    case Some(r) => Some(r)
    case None => if j == lo then None else Downward(rest, s, lo, j - 1)
  }

  /** A lazy run: try the rest after `j`, `j + 1`, ..., `hi`. */
  function Upward(rest: seq<Piece>, s: string, j: nat, hi: nat): (r: Option<Match>)
    requires WellFormed(rest) && j <= hi <= |s|
    ensures r.Some? ==> |r.value.pos| > 0 && j <= r.value.pos[0] <= hi && Positions(r.value.pos, |rest|, r.value.pos[0], s)
    decreases Size(rest) + 1, 1, hi - j
  {
    match MatchAt(rest, s, j)
    case Some(r) => Some(r)
    case None => if j == hi then None else Upward(rest, s, j + 1, hi)
  }

  /** Alternatives from the `k`-th on, each followed by the rest of the pattern; the result
      holds the positions of the rest only. */
  function FirstOption(opts: seq<seq<Piece>>, k: nat, rest: seq<Piece>, s: string, i: nat): (r: Option<Match>)
    requires forall j :: 0 <= j < |opts| ==> Plain(opts[j])
    requires WellFormed(rest) && k <= |opts| && i <= |s|
    ensures r.Some? ==> |r.value.pos| > 0 && i <= r.value.pos[0] && Positions(r.value.pos, |rest|, r.value.pos[0], s)
    decreases Size(rest) + 1 + SumLengths(opts), 1, |opts| - k
  {
    if k == |opts| then None
    else
      match MatchAt(Splice(opts[k], rest), s, i)
      case Some(r) => Some(Match(r.pos[|opts[k]|..]))
      case None => FirstOption(opts, k + 1, rest, s, i)
  }

  /** The order-free meaning: `ps` can consume exactly `s[i..e]`. */
  predicate Accepts(ps: seq<Piece>, s: string, i: nat, e: nat)
    requires WellFormed(ps) && i <= |s|
    decreases Size(ps)
  {
    if ps == [] then i == e
    else
      var rest := ps[1..];
      assert WellFormed(rest) by {
        forall k | 0 <= k < |rest| ensures rest[k] == ps[k + 1] { }
      }
      match ps[0]
      case Lit(t) => OccursAt(s, t, i) && Accepts(rest, s, i + |t|, e)
      case LitNoCase(t) => FoldOccursAt(s, t, i) && Accepts(rest, s, i + |t|, e)
      case One(cc) => i < |s| && InClass(cc, s[i]) && Accepts(rest, s, i + 1, e)
      case Many(cc, plus, _) =>
        exists j :: RunLow(s, i, plus) <= j <= |s| && AllIn(cc, s[i..j]) && Accepts(rest, s, j, e)
      case Alt(opts) =>
        exists k :: 0 <= k < |opts| && Accepts(Splice(opts[k], rest), s, i, e)
      case Boundary => IsBoundary(s, i) && Accepts(rest, s, i, e)
      case End => i == |s| && Accepts(rest, s, i, e)
  }

  /** A run of `cc` characters from `i` cannot reach past the longest one. */
  lemma RunWithin(s: string, i: nat, j: nat, cc: CharClass)
    requires i <= j <= |s| && AllIn(cc, s[i..j])
    ensures j <= RunEnd(s, i, cc)
  {
    forall k | i <= k < j ensures InClass(cc, s[k]) {
      assert s[i..j][k - i] == s[k];
    }
  }

  /** Every slice of the longest run is a run. */
  lemma RunPrefix(s: string, i: nat, j: nat, cc: CharClass)
    requires i <= |s| && i <= j <= RunEnd(s, i, cc)
    ensures AllIn(cc, s[i..j])
  {
    var e := RunEnd(s, i, cc);
    assert forall k :: 0 <= k < j - i ==> s[i..j][k] == s[i..e][k];
  }

  // ----- soundness: what the engine finds is a match -----

  lemma {:induction false} MatchSound(ps: seq<Piece>, s: string, i: nat)
    requires WellFormed(ps) && i <= |s|
    ensures MatchAt(ps, s, i).Some? ==> Accepts(ps, s, i, MatchAt(ps, s, i).value.End())
    decreases Size(ps), 3
  {
    if ps != [] && MatchAt(ps, s, i).Some? {
      if ps[0].Many? {
        ManySound(ps, s, i);
      } else if ps[0].Alt? {
        AltSound(ps, s, i);
      } else {
        StepSound(ps, s, i);
      }
    }
  }

  lemma {:induction false} StepSound(ps: seq<Piece>, s: string, i: nat)
    requires WellFormed(ps) && i <= |s|
    requires ps != [] && !ps[0].Many? && !ps[0].Alt? && MatchAt(ps, s, i).Some?
    ensures Accepts(ps, s, i, MatchAt(ps, s, i).value.End())
    decreases Size(ps), 2
  {
    StepUnfold(ps, s, i);
    var w := Width(ps[0]);
    MatchSound(ps[1..], s, i + w);
    var m := MatchAt(ps[1..], s, i + w).value;
    assert ([i] + m.pos)[|m.pos|] == m.End();
  }

  /** Whether a piece other than a run or an alternative matches at `i`. */
  predicate StepOk(p: Piece, s: string, i: nat)
    requires i <= |s|
  {
    match p
    case Lit(t) => OccursAt(s, t, i)
    case LitNoCase(t) => FoldOccursAt(s, t, i)
    case One(cc) => i < |s| && InClass(cc, s[i])
    case Boundary => IsBoundary(s, i)
    case End => i == |s|
    case _ => false
  }

  /** Matching and accepting a pattern that starts with a piece of fixed width. */
  lemma StepUnfold(ps: seq<Piece>, s: string, i: nat)
    requires WellFormed(ps) && i <= |s| && ps != [] && !ps[0].Many? && !ps[0].Alt?
    ensures WellFormed(ps[1..])
    ensures StepOk(ps[0], s, i) ==> i + Width(ps[0]) <= |s|
    ensures MatchAt(ps, s, i) ==
      if StepOk(ps[0], s, i) then Prepend(i, MatchAt(ps[1..], s, i + Width(ps[0]))) else None
    ensures forall e :: Accepts(ps, s, i, e) <==>
      StepOk(ps[0], s, i) && Accepts(ps[1..], s, i + Width(ps[0]), e)
  {
    var rest := ps[1..];
    assert WellFormed(rest) by {
      forall k | 0 <= k < |rest| ensures rest[k] == ps[k + 1] { }
    }
  }

  /** How far a piece other than a run or an alternative advances. */
  function Width(p: Piece): nat
  {
    match p
    case Lit(t) => |t|
    case LitNoCase(t) => |t|
    case One(_) => 1
    case _ => 0
  }

  lemma {:induction false} ManySound(ps: seq<Piece>, s: string, i: nat)
    requires WellFormed(ps) && i <= |s|
    requires ps != [] && ps[0].Many? && MatchAt(ps, s, i).Some?
    ensures Accepts(ps, s, i, MatchAt(ps, s, i).value.End())
    decreases Size(ps), 2
  {
    var rest := ps[1..];
    assert WellFormed(rest) by {
      forall k | 0 <= k < |rest| ensures rest[k] == ps[k + 1] { }
    }
    var cc, plus, lazy := ps[0].cc, ps[0].plus, ps[0].lazy;
    var lo, hi := RunLow(s, i, plus), RunEnd(s, i, cc);
    var j;
    if lazy {
      j := UpwardSound(rest, s, lo, hi);
    } else {
      j := DownwardSound(rest, s, lo, hi);
    }
    RunPrefix(s, i, j, cc);
  }

  lemma {:induction false} AltSound(ps: seq<Piece>, s: string, i: nat)
    requires WellFormed(ps) && i <= |s|
    requires ps != [] && ps[0].Alt? && MatchAt(ps, s, i).Some?
    ensures Accepts(ps, s, i, MatchAt(ps, s, i).value.End())
    decreases Size(ps), 2
  {
    var rest := ps[1..];
    assert WellFormed(rest) by {
      forall k | 0 <= k < |rest| ensures rest[k] == ps[k + 1] { }
    }
    var k := FirstOptionSound(ps[0].options, 0, rest, s, i);
  }

  lemma {:induction false} DownwardSound(rest: seq<Piece>, s: string, lo: nat, j: nat) returns (at: nat)
    requires WellFormed(rest) && lo <= j <= |s|
    requires Downward(rest, s, lo, j).Some?
    ensures lo <= at <= j && at == Downward(rest, s, lo, j).value.pos[0]
    ensures Accepts(rest, s, at, Downward(rest, s, lo, j).value.End())
    decreases Size(rest) + 1, 1, j - lo
  {
    MatchSound(rest, s, j);
    if MatchAt(rest, s, j).Some? {
      at := j;
    } else {
      at := DownwardSound(rest, s, lo, j - 1);
    }
  }

  lemma {:induction false} UpwardSound(rest: seq<Piece>, s: string, j: nat, hi: nat) returns (at: nat)
    requires WellFormed(rest) && j <= hi <= |s|
    requires Upward(rest, s, j, hi).Some?
    ensures j <= at <= hi && at == Upward(rest, s, j, hi).value.pos[0]
    ensures Accepts(rest, s, at, Upward(rest, s, j, hi).value.End())
    decreases Size(rest) + 1, 1, hi - j
  {
    MatchSound(rest, s, j);
    if MatchAt(rest, s, j).Some? {
      at := j;
    } else {
      at := UpwardSound(rest, s, j + 1, hi);
    }
  }

  lemma {:induction false} FirstOptionSound(opts: seq<seq<Piece>>, k: nat, rest: seq<Piece>, s: string, i: nat)
    returns (chosen: nat)
    requires forall j :: 0 <= j < |opts| ==> Plain(opts[j])
    requires WellFormed(rest) && k <= |opts| && i <= |s|
    requires FirstOption(opts, k, rest, s, i).Some?
    ensures k <= chosen < |opts|
    ensures Accepts(Splice(opts[chosen], rest), s, i, FirstOption(opts, k, rest, s, i).value.End())
    decreases Size(rest) + 1 + SumLengths(opts), 1, |opts| - k
  {
    MatchSound(Splice(opts[k], rest), s, i);
    if MatchAt(Splice(opts[k], rest), s, i).Some? {
      chosen := k;
    } else {
      chosen := FirstOptionSound(opts, k + 1, rest, s, i);
    }
  }

  // ----- completeness: backtracking misses no match -----

  lemma {:induction false} MatchComplete(ps: seq<Piece>, s: string, i: nat, e: nat)
    requires WellFormed(ps) && i <= |s|
    requires Accepts(ps, s, i, e)
    ensures MatchAt(ps, s, i).Some?
    decreases Size(ps), 3
  {
    if ps != [] {
      if ps[0].Many? {
        ManyComplete(ps, s, i, e);
      } else if ps[0].Alt? {
        AltComplete(ps, s, i, e);
      } else {
        StepComplete(ps, s, i, e);
      }
    }
  }

  lemma {:induction false} StepComplete(ps: seq<Piece>, s: string, i: nat, e: nat)
    requires WellFormed(ps) && i <= |s|
    requires ps != [] && !ps[0].Many? && !ps[0].Alt?
    requires Accepts(ps, s, i, e)
    ensures MatchAt(ps, s, i).Some?
    decreases Size(ps), 2
  {
    StepUnfold(ps, s, i);
    MatchComplete(ps[1..], s, i + Width(ps[0]), e);
  }

  lemma {:induction false} ManyComplete(ps: seq<Piece>, s: string, i: nat, e: nat)
    requires WellFormed(ps) && i <= |s|
    requires ps != [] && ps[0].Many?
    requires Accepts(ps, s, i, e)
    ensures MatchAt(ps, s, i).Some?
    decreases Size(ps), 2
  {
    var rest := ps[1..];
    assert WellFormed(rest) by {
      forall k | 0 <= k < |rest| ensures rest[k] == ps[k + 1] { }
    }
    var cc, plus, lazy := ps[0].cc, ps[0].plus, ps[0].lazy;
    var j :| RunLow(s, i, plus) <= j <= |s| && AllIn(cc, s[i..j]) && Accepts(rest, s, j, e);
    RunWithin(s, i, j, cc);
    var lo, hi := RunLow(s, i, plus), RunEnd(s, i, cc);
    if lazy {
      UpwardComplete(rest, s, lo, hi, j, e);
    } else {
      DownwardComplete(rest, s, lo, hi, j, e);
    }
  }

  lemma {:induction false} AltComplete(ps: seq<Piece>, s: string, i: nat, e: nat)
    requires WellFormed(ps) && i <= |s|
    requires ps != [] && ps[0].Alt?
    requires Accepts(ps, s, i, e)
    ensures MatchAt(ps, s, i).Some?
    decreases Size(ps), 2
  {
    var rest := ps[1..];
    assert WellFormed(rest) by {
      forall k | 0 <= k < |rest| ensures rest[k] == ps[k + 1] { }
    }
    var opts := ps[0].options;
    var k :| 0 <= k < |opts| && Accepts(Splice(opts[k], rest), s, i, e);
    FirstOptionComplete(opts, 0, rest, s, i, k, e);
  }

  lemma {:induction false} DownwardComplete(rest: seq<Piece>, s: string, lo: nat, j: nat, at: nat, e: nat)
    requires WellFormed(rest) && lo <= at <= j <= |s|
    requires Accepts(rest, s, at, e)
    ensures Downward(rest, s, lo, j).Some?
    decreases Size(rest) + 1, 1, j - lo
  {
    if at == j {
      MatchComplete(rest, s, j, e);
    } else if MatchAt(rest, s, j).None? {
      DownwardComplete(rest, s, lo, j - 1, at, e);
    }
  }

  lemma {:induction false} UpwardComplete(rest: seq<Piece>, s: string, j: nat, hi: nat, at: nat, e: nat)
    requires WellFormed(rest) && j <= at <= hi <= |s|
    requires Accepts(rest, s, at, e)
    ensures Upward(rest, s, j, hi).Some?
    decreases Size(rest) + 1, 1, hi - j
  {
    if at == j {
      MatchComplete(rest, s, j, e);
    } else if MatchAt(rest, s, j).None? {
      UpwardComplete(rest, s, j + 1, hi, at, e);
    }
  }

  lemma {:induction false} FirstOptionComplete(opts: seq<seq<Piece>>, k: nat, rest: seq<Piece>, s: string, i: nat,
                                               chosen: nat, e: nat)
    requires forall j :: 0 <= j < |opts| ==> Plain(opts[j])
    requires WellFormed(rest) && k <= chosen < |opts| && i <= |s|
    requires Accepts(Splice(opts[chosen], rest), s, i, e)
    ensures FirstOption(opts, k, rest, s, i).Some?
    decreases Size(rest) + 1 + SumLengths(opts), 1, |opts| - k
  {
    if chosen == k {
      MatchComplete(Splice(opts[k], rest), s, i, e);
    } else if MatchAt(Splice(opts[k], rest), s, i).None? {
      FirstOptionComplete(opts, k + 1, rest, s, i, chosen, e);
    }
  }

  // ----- what each top-level piece of a match consumed -----

  /** Piece `p` consumed exactly `s[a..b]`. */
  predicate PieceSpan(p: Piece, s: string, a: nat, b: nat)
  {
    && a <= b <= |s|
    && match p
       case Lit(t) => s[a..b] == t
       case LitNoCase(t) => b == a + |t| && FoldOccursAt(s, t, a)
       case One(cc) => b == a + 1 && InClass(cc, s[a])
       case Many(cc, plus, _) => AllIn(cc, s[a..b]) && (plus ==> a < b)
       case Alt(opts) => LiteralOptions(opts) ==> exists j :: 0 <= j < |opts| && s[a..b] == opts[j][0].text
       case Boundary => a == b && IsBoundary(s, a)
       case End => a == b == |s|
  }

  /** Every option of an alternative is one plain literal (`(TEAM|SERVER|LOCAL)`). */
  predicate LiteralOptions(opts: seq<seq<Piece>>)
  {
    forall j :: 0 <= j < |opts| ==> |opts[j]| == 1 && opts[j][0].Lit?
  }

  /** Between positions `k` and `k + 1` lies what piece `k` consumed. */
  predicate Spans(ps: seq<Piece>, s: string, pos: seq<nat>)
  {
    |pos| == |ps| + 1 && forall k :: 0 <= k < |ps| ==> PieceSpan(ps[k], s, pos[k], pos[k + 1])
  }

  lemma {:induction false} MatchSpans(ps: seq<Piece>, s: string, i: nat)
    requires WellFormed(ps) && i <= |s|
    ensures MatchAt(ps, s, i).Some? ==> Spans(ps, s, MatchAt(ps, s, i).value.pos)
    decreases Size(ps), 3
  {
    if ps != [] && MatchAt(ps, s, i).Some? {
      if ps[0].Many? {
        ManySpans(ps, s, i);
      } else if ps[0].Alt? {
        AltSpans(ps, s, i);
      } else {
        StepSpans(ps, s, i);
      }
    }
  }

  /** Spans of `[i] + pos` from the first piece's span and the spans of the rest. */
  lemma ConsSpans(ps: seq<Piece>, s: string, i: nat, pos: seq<nat>)
    requires ps != [] && |pos| > 0 && PieceSpan(ps[0], s, i, pos[0]) && Spans(ps[1..], s, pos)
    ensures Spans(ps, s, [i] + pos)
  {
    var q := [i] + pos;
    forall k | 1 <= k < |ps| ensures PieceSpan(ps[k], s, q[k], q[k + 1]) {
      assert ps[k] == ps[1..][k - 1];
    }
  }

  lemma {:induction false} StepSpans(ps: seq<Piece>, s: string, i: nat)
    requires WellFormed(ps) && i <= |s|
    requires ps != [] && !ps[0].Many? && !ps[0].Alt? && MatchAt(ps, s, i).Some?
    ensures Spans(ps, s, MatchAt(ps, s, i).value.pos)
    decreases Size(ps), 2
  {
    StepUnfold(ps, s, i);
    var w := Width(ps[0]);
    MatchSpans(ps[1..], s, i + w);
    var m := MatchAt(ps[1..], s, i + w).value;
    assert PieceSpan(ps[0], s, i, m.pos[0]);
    ConsSpans(ps, s, i, m.pos);
  }

  lemma {:induction false} ManySpans(ps: seq<Piece>, s: string, i: nat)
    requires WellFormed(ps) && i <= |s|
    requires ps != [] && ps[0].Many? && MatchAt(ps, s, i).Some?
    ensures Spans(ps, s, MatchAt(ps, s, i).value.pos)
    decreases Size(ps), 2
  {
    var rest := ps[1..];
    assert WellFormed(rest) by {
      forall k | 0 <= k < |rest| ensures rest[k] == ps[k + 1] { }
    }
    var cc, plus, lazy := ps[0].cc, ps[0].plus, ps[0].lazy;
    var lo, hi := RunLow(s, i, plus), RunEnd(s, i, cc);
    var r := if lazy then Upward(rest, s, lo, hi) else Downward(rest, s, lo, hi);
    assert MatchAt(ps, s, i) == Prepend(i, r);
    if lazy {
      UpwardSpans(rest, s, lo, hi);
    } else {
      DownwardSpans(rest, s, lo, hi);
    }
    RunPrefix(s, i, r.value.pos[0], cc);
    ConsSpans(ps, s, i, r.value.pos);
  }

  lemma {:induction false} AltSpans(ps: seq<Piece>, s: string, i: nat)
    requires WellFormed(ps) && i <= |s|
    requires ps != [] && ps[0].Alt? && MatchAt(ps, s, i).Some?
    ensures Spans(ps, s, MatchAt(ps, s, i).value.pos)
    decreases Size(ps), 2
  {
    var rest := ps[1..];
    assert WellFormed(rest) by {
      forall k | 0 <= k < |rest| ensures rest[k] == ps[k + 1] { }
    }
    var r := FirstOption(ps[0].options, 0, rest, s, i);
    assert MatchAt(ps, s, i) == Prepend(i, r);
    FirstOptionSpans(ps[0].options, 0, rest, s, i);
    assert PieceSpan(ps[0], s, i, r.value.pos[0]);
    ConsSpans(ps, s, i, r.value.pos);
  }

  lemma {:induction false} DownwardSpans(rest: seq<Piece>, s: string, lo: nat, j: nat)
    requires WellFormed(rest) && lo <= j <= |s|
    ensures Downward(rest, s, lo, j).Some? ==> Spans(rest, s, Downward(rest, s, lo, j).value.pos)
    decreases Size(rest) + 1, 1, j - lo
  {
    MatchSpans(rest, s, j);
    if MatchAt(rest, s, j).None? && j > lo {
      DownwardSpans(rest, s, lo, j - 1);
    }
  }

  lemma {:induction false} UpwardSpans(rest: seq<Piece>, s: string, j: nat, hi: nat)
    requires WellFormed(rest) && j <= hi <= |s|
    ensures Upward(rest, s, j, hi).Some? ==> Spans(rest, s, Upward(rest, s, j, hi).value.pos)
    decreases Size(rest) + 1, 1, hi - j
  {
    MatchSpans(rest, s, j);
    if MatchAt(rest, s, j).None? && j < hi {
      UpwardSpans(rest, s, j + 1, hi);
    }
  }

  lemma {:induction false} FirstOptionSpans(opts: seq<seq<Piece>>, k: nat, rest: seq<Piece>, s: string, i: nat)
    requires forall j :: 0 <= j < |opts| ==> Plain(opts[j])
    requires WellFormed(rest) && k <= |opts| && i <= |s|
    ensures FirstOption(opts, k, rest, s, i).Some? ==> Spans(rest, s, FirstOption(opts, k, rest, s, i).value.pos)
    ensures FirstOption(opts, k, rest, s, i).Some? && LiteralOptions(opts) ==>
      exists j :: k <= j < |opts| && s[i..FirstOption(opts, k, rest, s, i).value.pos[0]] == opts[j][0].text
    decreases Size(rest) + 1 + SumLengths(opts), 1, |opts| - k
  {
    if k < |opts| {
      var o := opts[k];
      var whole := Splice(o, rest);
      MatchSpans(whole, s, i);
      if MatchAt(whole, s, i).Some? {
        var pos := MatchAt(whole, s, i).value.pos;
        forall j | 0 <= j < |rest| ensures PieceSpan(rest[j], s, pos[|o|..][j], pos[|o|..][j + 1]) {
          assert whole[|o| + j] == rest[j];
        }
        if LiteralOptions(opts) {
          assert PieceSpan(whole[0], s, pos[0], pos[1]) && whole[0] == o[0];
          assert pos[|o|..][0] == pos[1];
        }
      } else {
        FirstOptionSpans(opts, k + 1, rest, s, i);
      }
    }
  }

  /** What a piece consumed: its text for a literal, the slice between its positions otherwise. */
  function Consumed(p: Piece, s: string, a: nat, b: nat): string
    requires a <= b <= |s|
  {
    if p.Lit? then p.text else s[a..b]
  }

  /** Over a match, the text from before piece `a` to after piece `b` is the text up to
      piece `b` followed by what piece `b` consumed. */
  lemma Consume(ps: seq<Piece>, s: string, pos: seq<nat>, a: nat, b: nat)
    requires |pos| > 0 && Positions(pos, |ps|, pos[0], s) && Spans(ps, s, pos) && a <= b < |ps|
    ensures |pos| == |ps| + 1 && pos[a] <= pos[b] <= pos[b + 1] <= |s|
    ensures s[pos[a]..pos[b + 1]] == s[pos[a]..pos[b]] + Consumed(ps[b], s, pos[b], pos[b + 1])
  {
    assert PieceSpan(ps[b], s, pos[b], pos[b + 1]);
  }

  /** A piece that always consumes exactly one character. */
  predicate SingleChar(p: Piece)
  {
    p.One? || (p.Lit? && |p.text| == 1)
  }

  /** Character `c` is one that single-character piece `p` consumes. */
  predicate CharFits(p: Piece, c: char)
  {
    match p
    case One(cc) => InClass(cc, c)
    case Lit(t) => t == [c]
    case _ => false
  }

  /** Across a stretch of single-character pieces, piece `k` consumed the character at
      `pos[a] + (k - a)`. */
  lemma {:induction false} SingleCharRun(ps: seq<Piece>, s: string, pos: seq<nat>, a: nat, b: nat)
    requires |pos| == |ps| + 1 && a <= b <= |ps|
    requires forall k :: a <= k < b ==> SingleChar(ps[k]) && PieceSpan(ps[k], s, pos[k], pos[k + 1])
    ensures pos[b] == pos[a] + (b - a)
    ensures forall k :: a <= k < b ==> pos[k] == pos[a] + (k - a) < |s| && CharFits(ps[k], s[pos[k]])
    decreases b - a
  {
    if a < b {
      SingleCharRun(ps, s, pos, a + 1, b);
      assert PieceSpan(ps[a], s, pos[a], pos[a + 1]);
      if ps[a].Lit? {
        assert s[pos[a]..pos[a + 1]][0] == s[pos[a]];
      }
    }
  }

  /** Capture group `k` of a match: the text piece `k` consumed. */
  function Capture(ps: seq<Piece>, s: string, m: Match, k: nat): (g: string)
    requires |m.pos| > 0 && Positions(m.pos, |ps|, m.pos[0], s) && Spans(ps, s, m.pos) && k < |ps|
    ensures m.pos[k] + |g| <= |s| && g == s[m.pos[k]..m.pos[k] + |g|]
    ensures PieceSpan(ps[k], s, m.pos[k], m.pos[k] + |g|)
  {
    s[m.pos[k]..m.pos[k + 1]]
  }

  /** The text between the positions before pieces `a` and `b` of a match. */
  function Group(s: string, m: Match, a: nat, b: nat): (g: string)
    requires a <= b < |m.pos| && m.pos[a] <= m.pos[b] <= |s|
    ensures |g| == m.pos[b] - m.pos[a]
  {
    s[m.pos[a]..m.pos[b]]
  }

  // ----- searching: `String.prototype.match` and `matchAll` -----

  /** Where a match found by scanning starts, and the match. */
  datatype Found = Found(start: nat, m: Match)

  ghost predicate MatchesFrom(ps: seq<Piece>, s: string, q: nat)
    requires WellFormed(ps) && q <= |s|
  {
    exists e :: Accepts(ps, s, q, e)
  }

  /** `ps` matches somewhere in `s`. */
  ghost predicate Matches(ps: seq<Piece>, s: string)
    requires WellFormed(ps)
  {
    exists q :: 0 <= q <= |s| && MatchesFrom(ps, s, q)
  }

  /** The leftmost match at or after `p` (the first start the engine succeeds at). */
  function Search(ps: seq<Piece>, s: string, p: nat): (r: Option<Found>)
    requires WellFormed(ps) && p <= |s|
    ensures r.Some? ==> p <= r.value.start <= |s| && MatchAt(ps, s, r.value.start) == Some(r.value.m)
    ensures r.Some? ==> forall q :: p <= q < r.value.start ==> MatchAt(ps, s, q).None?
    ensures r.None? ==> forall q :: p <= q <= |s| ==> MatchAt(ps, s, q).None?
    decreases |s| - p
  {
    match MatchAt(ps, s, p)
    case Some(mt) => Some(Found(p, mt))
    case None => if p == |s| then None else Search(ps, s, p + 1)
  }

  /** `s.match(re)` for a pattern without the `g` flag. */
  function FirstMatch(ps: seq<Piece>, s: string): Option<Found>
    requires WellFormed(ps)
  {
    Search(ps, s, 0)
  }

  /** The search reports a match exactly when the pattern matches somewhere, and it reports the leftmost one. */
  lemma SearchLeftmost(ps: seq<Piece>, s: string)
    requires WellFormed(ps)
    ensures FirstMatch(ps, s).Some? <==> Matches(ps, s)
    ensures FirstMatch(ps, s).Some? ==>
      && Accepts(ps, s, FirstMatch(ps, s).value.start, FirstMatch(ps, s).value.m.End())
      && forall q :: 0 <= q < FirstMatch(ps, s).value.start ==> !MatchesFrom(ps, s, q)
  {
    var r := FirstMatch(ps, s);
    if r.Some? {
      MatchSound(ps, s, r.value.start);
      assert MatchesFrom(ps, s, r.value.start);
      forall q | 0 <= q < r.value.start ensures !MatchesFrom(ps, s, q) {
        if MatchesFrom(ps, s, q) {
          var e :| Accepts(ps, s, q, e);
          MatchComplete(ps, s, q, e);
        }
      }
    } else {
      forall q | 0 <= q <= |s| ensures !MatchesFrom(ps, s, q) {
        if MatchesFrom(ps, s, q) {
          var e :| Accepts(ps, s, q, e);
          MatchComplete(ps, s, q, e);
        }
      }
    }
  }

  /** `i` is where the leftmost match of `ps` in `s` begins. */
  ghost predicate FirstStart(ps: seq<Piece>, s: string, i: nat)
    requires WellFormed(ps)
  {
    i <= |s| && MatchesFrom(ps, s, i) && forall q :: 0 <= q < i ==> !MatchesFrom(ps, s, q)
  }

  /** The leftmost match of `ps` in `s`, with what each of its pieces consumed. */
  function Leftmost(ps: seq<Piece>, s: string): (r: Option<Match>)
    requires WellFormed(ps)
    ensures r.Some? <==> Matches(ps, s)
    ensures r.Some? ==> |r.value.pos| > 0 && Positions(r.value.pos, |ps|, r.value.pos[0], s)
    ensures r.Some? ==> Spans(ps, s, r.value.pos) && FirstStart(ps, s, r.value.pos[0])
    ensures r.Some? ==> MatchAt(ps, s, r.value.pos[0]) == r
  {
    SearchLeftmost(ps, s);
    match FirstMatch(ps, s)
    case None => None
    case Some(f) =>
      MatchSpans(ps, s, f.start);
      Some(f.m)
  }

  /** Where a `g` scan goes on after match `f`: its end, or one further on after an empty match. */
  function Resume(f: Found): nat
    requires |f.m.pos| > 0
  {
    if f.m.End() == f.start then f.m.End() + 1 else f.m.End()
  }

  /** `[...s.matchAll(re)]` from position `p` (a `g` pattern). */
  function MatchAll(ps: seq<Piece>, s: string, p: nat): (r: seq<Found>)
    requires WellFormed(ps) && p <= |s|
    ensures r == [] <==> Search(ps, s, p).None?
    ensures forall k :: 0 <= k < |r| ==> p <= r[k].start <= |s| && MatchAt(ps, s, r[k].start) == Some(r[k].m)
    decreases |s| - p
  {
    match Search(ps, s, p)
    case None => []
    case Some(f) =>
      var next := Resume(f);
      if next > |s| then [f] else [f] + MatchAll(ps, s, next)
  }

  /** Matches `r` of a `g` scan follow one another: each next one is the leftmost match from
      where the one before leaves the scan, and no match follows the last. */
  ghost predicate Chained(ps: seq<Piece>, s: string, r: seq<Found>)
    requires WellFormed(ps)
  {
    && (forall k :: 0 <= k < |r| - 1 ==>
          |r[k].m.pos| > 0 && Resume(r[k]) <= |s| && Search(ps, s, Resume(r[k])) == Some(r[k + 1]))
    && (r != [] ==>
          |r[|r| - 1].m.pos| > 0 && (Resume(r[|r| - 1]) > |s| || Search(ps, s, Resume(r[|r| - 1])).None?))
  }

  /** The matches of a `g` scan are the leftmost match at or after `p`, then the leftmost at or
      after where each one leaves the scan, until none is left or the scan passes the end. */
  lemma {:induction false} MatchAllSuccessive(ps: seq<Piece>, s: string, p: nat)
    requires WellFormed(ps) && p <= |s|
    ensures var r := MatchAll(ps, s, p);
      && (r != [] ==> Search(ps, s, p) == Some(r[0]))
      && Chained(ps, s, r)
    decreases |s| - p
  {
    hide Search, MatchAt;
    var r := MatchAll(ps, s, p);
    if r != [] {
      var f := Search(ps, s, p).value;
      var next := Resume(f);
      assert |f.m.pos| > 0;
      if next <= |s| {
        var rest := MatchAll(ps, s, next);
        assert r == [f] + rest;
        assert rest != [] ==> Search(ps, s, next) == Some(rest[0]) by {
          MatchAllSuccessive(ps, s, next);
        }
        assert Chained(ps, s, rest) by {
          MatchAllSuccessive(ps, s, next);
        }
        hide MatchAll, Chained, Resume;
        ChainCons(ps, s, f, rest);
      } else {
        assert r == [f];
      }
    }
  }

  /** A match followed by a chain that starts at the leftmost match from where it leaves the
      scan is a chain. */
  lemma ChainCons(ps: seq<Piece>, s: string, f: Found, rest: seq<Found>)
    requires WellFormed(ps) && |f.m.pos| > 0 && Resume(f) <= |s| && Chained(ps, s, rest)
    requires rest == [] ==> Search(ps, s, Resume(f)).None?
    requires rest != [] ==> Search(ps, s, Resume(f)) == Some(rest[0])
    ensures Chained(ps, s, [f] + rest)
  {
    hide Search, MatchAt, Resume;
    var r := [f] + rest;
    forall k | 0 <= k < |r| - 1
      ensures |r[k].m.pos| > 0 && Resume(r[k]) <= |s| && Search(ps, s, Resume(r[k])) == Some(r[k + 1])
    {
      if k == 0 {
        assert r[0] == f && r[1] == rest[0];
      } else {
        assert r[k] == rest[k - 1] && r[k + 1] == rest[k];
      }
    }
    if rest == [] {
      assert r == [f];
    } else {
      assert r[|r| - 1] == rest[|rest| - 1];
    }
  }

  // ----- the tail of a match -----

  /** What the engine matches after the first piece is the engine's own match of the rest
      of the pattern from there. */
  lemma {:induction false} MatchTail(ps: seq<Piece>, s: string, i: nat, k: nat)
    requires WellFormed(ps) && i <= |s| && k <= |ps| && MatchAt(ps, s, i).Some?
    ensures var pos := MatchAt(ps, s, i).value.pos;
      WellFormed(ps[k..]) && pos[k] <= |s| && MatchAt(ps[k..], s, pos[k]) == Some(Match(pos[k..]))
    decreases Size(ps), 3
  {
    var pos := MatchAt(ps, s, i).value.pos;
    SuffixWellFormed(ps, k);
    if k == 0 {
      assert ps[0..] == ps && pos[0..] == pos;
    } else {
      hide MatchAt, WellFormed;
      OneStep(ps, s, i);
      var rest := ps[1..];
      MatchTail(rest, s, pos[1], k - 1);
      assert rest[k - 1..] == ps[k..];
      assert pos[1..][k - 1..] == pos[k..];
    }
  }

  /** The pieces from `k` on form a pattern of their own. */
  lemma SuffixWellFormed(ps: seq<Piece>, k: nat)
    requires WellFormed(ps) && k <= |ps|
    ensures WellFormed(ps[k..])
  {
    forall j | 0 <= j < |ps[k..]| ensures ps[k..][j] == ps[k + j] { }
  }

  lemma {:induction false} OneStep(ps: seq<Piece>, s: string, i: nat)
    requires WellFormed(ps) && i <= |s| && ps != [] && MatchAt(ps, s, i).Some?
    ensures var pos := MatchAt(ps, s, i).value.pos;
      WellFormed(ps[1..]) && pos[1] <= |s| && MatchAt(ps[1..], s, pos[1]) == Some(Match(pos[1..]))
    decreases Size(ps), 2
  {
    var rest := ps[1..];
    assert WellFormed(rest) by {
      forall k | 0 <= k < |rest| ensures rest[k] == ps[k + 1] { }
    }
    if ps[0].Many? {
      var lo, hi := RunLow(s, i, ps[0].plus), RunEnd(s, i, ps[0].cc);
      if ps[0].lazy {
        var t := Upward(rest, s, lo, hi);
        assert MatchAt(ps, s, i) == Prepend(i, t);
        UpwardTail(rest, s, lo, hi);
        PrependStep(ps, s, i, t);
      } else {
        var t := Downward(rest, s, lo, hi);
        assert MatchAt(ps, s, i) == Prepend(i, t);
        DownwardTail(rest, s, lo, hi);
        PrependStep(ps, s, i, t);
      }
    } else if ps[0].Alt? {
      var t := FirstOption(ps[0].options, 0, rest, s, i);
      assert MatchAt(ps, s, i) == Prepend(i, t);
      FirstOptionTail(ps[0].options, 0, rest, s, i);
      PrependStep(ps, s, i, t);
    } else {
      StepUnfold(ps, s, i);
      PrependStep(ps, s, i, MatchAt(rest, s, i + Width(ps[0])));
    }
  }

  /** A match that extends the match `t` of the remaining pieces by one position: the rest
      matches again where `t` starts, with `t`'s positions. */
  lemma PrependStep(ps: seq<Piece>, s: string, i: nat, t: Option<Match>)
    requires WellFormed(ps) && i <= |s| && ps != [] && WellFormed(ps[1..])
    requires MatchAt(ps, s, i) == Prepend(i, t) && t.Some? && |t.value.pos| > 0 && t.value.pos[0] <= |s|
    requires MatchAt(ps[1..], s, t.value.pos[0]) == t
    ensures var pos := MatchAt(ps, s, i).value.pos;
      pos[1] <= |s| && MatchAt(ps[1..], s, pos[1]) == Some(Match(pos[1..]))
  {
    hide MatchAt;
    var pos := MatchAt(ps, s, i).value.pos;
    assert pos == [i] + t.value.pos;
    assert pos[1..] == t.value.pos;
  }

  lemma {:induction false} DownwardTail(rest: seq<Piece>, s: string, lo: nat, j: nat)
    requires WellFormed(rest) && lo <= j <= |s|
    ensures var r := Downward(rest, s, lo, j); r.Some? ==> MatchAt(rest, s, r.value.pos[0]) == r
    decreases j - lo
  {
    if MatchAt(rest, s, j).None? && j > lo {
      DownwardTail(rest, s, lo, j - 1);
    }
  }

  lemma {:induction false} UpwardTail(rest: seq<Piece>, s: string, j: nat, hi: nat)
    requires WellFormed(rest) && j <= hi <= |s|
    ensures var r := Upward(rest, s, j, hi); r.Some? ==> MatchAt(rest, s, r.value.pos[0]) == r
    decreases hi - j
  {
    if MatchAt(rest, s, j).None? && j < hi {
      UpwardTail(rest, s, j + 1, hi);
    }
  }

  lemma {:induction false} FirstOptionTail(opts: seq<seq<Piece>>, k: nat, rest: seq<Piece>, s: string, i: nat)
    requires forall j :: 0 <= j < |opts| ==> Plain(opts[j])
    requires WellFormed(rest) && k <= |opts| && i <= |s|
    ensures var r := FirstOption(opts, k, rest, s, i); r.Some? ==> MatchAt(rest, s, r.value.pos[0]) == r
    decreases Size(rest) + 1 + SumLengths(opts), 1, |opts| - k
  {
    if k < |opts| {
      var whole := Splice(opts[k], rest);
      if MatchAt(whole, s, i).Some? {
        MatchTail(whole, s, i, |opts[k]|);
        assert whole[|opts[k]|..] == rest;
      } else {
        FirstOptionTail(opts, k + 1, rest, s, i);
      }
    }
  }

  /** A greedy run that ends the pattern takes the longest run there is. */
  lemma GreedyLast(ps: seq<Piece>, s: string, i: nat)
    requires WellFormed(ps) && i <= |s| && ps != [] && ps[|ps| - 1].Many? && !ps[|ps| - 1].lazy
    requires MatchAt(ps, s, i).Some?
    ensures var pos, n := MatchAt(ps, s, i).value.pos, |ps|;
      pos[n - 1] <= |s| && pos[n] == RunEnd(s, pos[n - 1], ps[n - 1].cc)
  {
    var pos, n := MatchAt(ps, s, i).value.pos, |ps|;
    MatchTail(ps, s, i, n - 1);
    var last := ps[n - 1..];
    assert last == [ps[n - 1]];
    hide MatchAt;
    GreedyAlone(ps[n - 1], s, pos[n - 1]);
    assert pos[n - 1..][1] == pos[n];
  }

  /** A greedy run on its own matches the whole run. */
  lemma GreedyAlone(p: Piece, s: string, j: nat)
    requires WellFormed([p]) && j <= |s| && p.Many? && !p.lazy && MatchAt([p], s, j).Some?
    ensures MatchAt([p], s, j).value.pos == [j, RunEnd(s, j, p.cc)]
  {
    assert [p][1..] == [];
    var lo, hi := RunLow(s, j, p.plus), RunEnd(s, j, p.cc);
    if lo <= hi {
      assert Downward([], s, lo, hi) == Some(Match([hi]));
    }
  }

  /** A lazy run stops at the first position from which the rest matches. */
  lemma {:induction false} UpwardFirst(rest: seq<Piece>, s: string, j: nat, hi: nat)
    requires WellFormed(rest) && j <= hi <= |s| && Upward(rest, s, j, hi).Some?
    ensures forall q :: j <= q < Upward(rest, s, j, hi).value.pos[0] ==> MatchAt(rest, s, q).None?
    decreases hi - j
  {
    if MatchAt(rest, s, j).None? {
      UpwardFirst(rest, s, j + 1, hi);
    }
  }

  /** In a match, a lazy run `k` is as short as it can be: from no earlier end than the
      one taken could the pieces after it match. */
  lemma LazyShortest(ps: seq<Piece>, s: string, i: nat, k: nat, rest: seq<Piece>)
    requires WellFormed(ps) && i <= |s| && k < |ps| && ps[k].Many? && ps[k].lazy && MatchAt(ps, s, i).Some?
    requires rest == ps[k + 1..]
    ensures var pos := MatchAt(ps, s, i).value.pos; WellFormed(rest) && pos[k] <= pos[k + 1] <= |s|
    ensures WellFormed(rest) && forall q ::
      RunLow(s, MatchAt(ps, s, i).value.pos[k], ps[k].plus) <= q < MatchAt(ps, s, i).value.pos[k + 1] ==>
      q <= |s| && MatchAt(rest, s, q).None?
  {
    var pos := MatchAt(ps, s, i).value.pos;
    MatchTail(ps, s, i, k);
    var tail := ps[k..];
    assert tail[0] == ps[k] && tail[1..] == rest;
    var cc, plus := ps[k].cc, ps[k].plus;
    var lo, hi := RunLow(s, pos[k], plus), RunEnd(s, pos[k], cc);
    assert MatchAt(tail, s, pos[k]) == Prepend(pos[k], Upward(rest, s, lo, hi));
    assert pos[k..][1..][0] == pos[k + 1];
    UpwardFirst(rest, s, lo, hi);
  }

  /** `t` occurs at `i` and a run of class `cc` does not go on after it. */
  predicate OccursMaximal(s: string, t: string, i: nat, cc: CharClass)
  {
    OccursAt(s, t, i) && (i + |t| < |s| ==> !InClass(cc, s[i + |t|]))
  }

  /** `t` occurs at `i` with a word boundary on either side. */
  predicate WordAt(s: string, t: string, i: nat)
  {
    OccursAt(s, t, i) && IsBoundary(s, i) && IsBoundary(s, i + |t|)
  }

  // ----- the text of a match of literals and groups -----

  /** From piece `a` on, a match of a literal followed by one group reads the literal and then the group. */
  lemma Shape2(ps: seq<Piece>, s: string, pos: seq<nat>, a: nat)
    requires a + 2 <= |ps| && ps[a].Lit?
    requires |pos| > 0 && Positions(pos, |ps|, pos[0], s) && Spans(ps, s, pos)
    ensures s[pos[a]..pos[a + 2]] == ps[a].text + s[pos[a + 1]..pos[a + 2]]
    ensures OccursAt(s, ps[a].text + s[pos[a + 1]..pos[a + 2]], pos[a])
  {
    hide Spans;
    Consume(ps, s, pos, a, a + 1);
    assert s[pos[a]..pos[a + 1]] == ps[a].text by { Consume(ps, s, pos, a, a); assert s[pos[a]..pos[a]] == []; }
  }

  /** Literal, group, literal. */
  lemma Shape3(ps: seq<Piece>, s: string, pos: seq<nat>, a: nat)
    requires a + 3 <= |ps| && ps[a].Lit? && ps[a + 2].Lit?
    requires |pos| > 0 && Positions(pos, |ps|, pos[0], s) && Spans(ps, s, pos)
    ensures s[pos[a]..pos[a + 3]] == ps[a].text + s[pos[a + 1]..pos[a + 2]] + ps[a + 2].text
    ensures OccursAt(s, ps[a].text + s[pos[a + 1]..pos[a + 2]] + ps[a + 2].text, pos[a])
  {
    hide Spans;
    var l0, l2, g1 := ps[a].text, ps[a + 2].text, s[pos[a + 1]..pos[a + 2]];
    assert s[pos[a]..pos[a + 1]] == l0 by { Consume(ps, s, pos, a, a); assert s[pos[a]..pos[a]] == []; }
    assert s[pos[a]..pos[a + 2]] == l0 + g1 by { Consume(ps, s, pos, a, a + 1); }
    assert s[pos[a]..pos[a + 3]] == l0 + g1 + l2 by { Consume(ps, s, pos, a, a + 2); }
  }

  /** Literal, group, literal, group. */
  lemma Shape4(ps: seq<Piece>, s: string, pos: seq<nat>, a: nat)
    requires a + 4 <= |ps| && ps[a].Lit? && ps[a + 2].Lit?
    requires |pos| > 0 && Positions(pos, |ps|, pos[0], s) && Spans(ps, s, pos)
    ensures s[pos[a]..pos[a + 4]] == ps[a].text + s[pos[a + 1]..pos[a + 2]] + ps[a + 2].text + s[pos[a + 3]..pos[a + 4]]
    ensures OccursAt(s, ps[a].text + s[pos[a + 1]..pos[a + 2]] + ps[a + 2].text + s[pos[a + 3]..pos[a + 4]], pos[a])
  {
    hide Spans;
    var l0, l2, g1, g3 := ps[a].text, ps[a + 2].text, s[pos[a + 1]..pos[a + 2]], s[pos[a + 3]..pos[a + 4]];
    assert s[pos[a]..pos[a + 1]] == l0 by { Consume(ps, s, pos, a, a); assert s[pos[a]..pos[a]] == []; }
    assert s[pos[a]..pos[a + 2]] == l0 + g1 by { Consume(ps, s, pos, a, a + 1); }
    assert s[pos[a]..pos[a + 3]] == l0 + g1 + l2 by { Consume(ps, s, pos, a, a + 2); }
    assert s[pos[a]..pos[a + 4]] == l0 + g1 + l2 + g3 by { Consume(ps, s, pos, a, a + 3); }
  }

  /** Literal, group, literal, group, literal, group. */
  lemma Shape6(ps: seq<Piece>, s: string, pos: seq<nat>, a: nat)
    requires a + 6 <= |ps| && ps[a].Lit? && ps[a + 2].Lit? && ps[a + 4].Lit?
    requires |pos| > 0 && Positions(pos, |ps|, pos[0], s) && Spans(ps, s, pos)
    ensures s[pos[a]..pos[a + 6]] == ps[a].text + s[pos[a + 1]..pos[a + 2]] + ps[a + 2].text
      + s[pos[a + 3]..pos[a + 4]] + ps[a + 4].text + s[pos[a + 5]..pos[a + 6]]
    ensures OccursAt(s, ps[a].text + s[pos[a + 1]..pos[a + 2]] + ps[a + 2].text + s[pos[a + 3]..pos[a + 4]]
      + ps[a + 4].text + s[pos[a + 5]..pos[a + 6]], pos[a])
  {
    hide Spans;
    var l0, l2, l4 := ps[a].text, ps[a + 2].text, ps[a + 4].text;
    var g1, g3, g5 := s[pos[a + 1]..pos[a + 2]], s[pos[a + 3]..pos[a + 4]], s[pos[a + 5]..pos[a + 6]];
    assert s[pos[a]..pos[a + 1]] == l0 by { Consume(ps, s, pos, a, a); assert s[pos[a]..pos[a]] == []; }
    assert s[pos[a]..pos[a + 2]] == l0 + g1 by { Consume(ps, s, pos, a, a + 1); }
    assert s[pos[a]..pos[a + 3]] == l0 + g1 + l2 by { Consume(ps, s, pos, a, a + 2); }
    assert s[pos[a]..pos[a + 4]] == l0 + g1 + l2 + g3 by { Consume(ps, s, pos, a, a + 3); }
    assert s[pos[a]..pos[a + 5]] == l0 + g1 + l2 + g3 + l4 by { Consume(ps, s, pos, a, a + 4); }
    assert s[pos[a]..pos[a + 6]] == l0 + g1 + l2 + g3 + l4 + g5 by { Consume(ps, s, pos, a, a + 5); }
  }

  /** Literal, group, literal, group, literal, group, literal. */
  lemma Shape7(ps: seq<Piece>, s: string, pos: seq<nat>, a: nat)
    requires a + 7 <= |ps| && ps[a].Lit? && ps[a + 2].Lit? && ps[a + 4].Lit? && ps[a + 6].Lit?
    requires |pos| > 0 && Positions(pos, |ps|, pos[0], s) && Spans(ps, s, pos)
    ensures s[pos[a]..pos[a + 7]] == ps[a].text + s[pos[a + 1]..pos[a + 2]] + ps[a + 2].text
      + s[pos[a + 3]..pos[a + 4]] + ps[a + 4].text + s[pos[a + 5]..pos[a + 6]] + ps[a + 6].text
    ensures OccursAt(s, ps[a].text + s[pos[a + 1]..pos[a + 2]] + ps[a + 2].text + s[pos[a + 3]..pos[a + 4]]
      + ps[a + 4].text + s[pos[a + 5]..pos[a + 6]] + ps[a + 6].text, pos[a])
  {
    hide Spans;
    Shape6(ps, s, pos, a);
    var six := ps[a].text + s[pos[a + 1]..pos[a + 2]] + ps[a + 2].text
      + s[pos[a + 3]..pos[a + 4]] + ps[a + 4].text + s[pos[a + 5]..pos[a + 6]];
    assert s[pos[a]..pos[a + 7]] == six + ps[a + 6].text by { Consume(ps, s, pos, a, a + 6); }
  }
}
