/** The `known_hosts` wildcard matcher of `src/ssh.rs`. */
module Glob {
  import opened Common

  const STAR: byte := 42
  const QUESTION: byte := 63
  const BANG: byte := 33

  function AsciiLower(b: byte): byte {
    if 65 <= b <= 90 then b + 32 else b
  }

  predicate EqIgnoreAsciiCase(a: byte, b: byte) {
    AsciiLower(a) == AsciiLower(b)
  }

  /** One pattern byte other than `*` against one target byte. */
  predicate MatchesByte(p: byte, t: byte) {
    p == QUESTION || EqIgnoreAsciiCase(p, t)
  }

  /** What a pattern means: `*` is any run, `?` any byte, anything else itself up to ASCII case. */
  ghost predicate Matches(p: seq<byte>, t: seq<byte>) {
    if p == [] then t == []
    else if p[0] == STAR then exists k :: 0 <= k <= |t| && Matches(p[1..], t[k..])
    else t != [] && MatchesByte(p[0], t[0]) && Matches(p[1..], t[1..])
  }

  /** A star-free prefix of a pattern consumes exactly its own length. */
  lemma {:induction false} LiteralPrefix(q: seq<byte>, p: seq<byte>, t: seq<byte>)
    requires STAR !in q
    requires Matches(q + p, t)
    ensures |q| <= |t| && Matches(p, t[|q|..])
  {
    if q == [] {
      assert q + p == p && t[0..] == t;
    } else {
      assert (q + p)[1..] == q[1..] + p;
      LiteralPrefix(q[1..], p, t[1..]);
      assert t[1..][|q| - 1..] == t[|q|..];
    }
  }

  lemma {:induction false} MatchesEmpty(p: seq<byte>)
    ensures Matches(p, []) <==> forall i :: 0 <= i < |p| ==> p[i] == STAR
  {
    if p != [] {
      MatchesEmpty(p[1..]);
      var t: seq<byte> := [];
      assert t[0..] == t;
      if p[0] == STAR {
        assert Matches(p, t) <==> Matches(p[1..], t[0..]);
        assert forall i :: 1 <= i < |p| ==> p[i] == p[1..][i - 1];
      }
    }
  }

  /** Some later start of the last `*` matches: what the saved backtrack point still offers. */
  ghost predicate LaterStart(star: Option<(seq<byte>, seq<byte>)>) {
    star.Some? && exists j :: 1 <= j <= |star.value.1| && Matches(star.value.0, star.value.1[j..])
  }

  /** The saved point is the current one rewound over a star-free stretch of the pattern. */
  ghost predicate SavedPoint(star: Option<(seq<byte>, seq<byte>)>, pat: seq<byte>, tgt: seq<byte>) {
    star.Some? ==>
      var (resume, from) := star.value;
      exists q :: STAR !in q && resume == q + pat && |q| <= |from| && tgt == from[|q|..]
  }

  /** Meeting a new `*` makes every older backtrack point useless. */
  lemma NewStarSubsumes(star: Option<(seq<byte>, seq<byte>)>, pat: seq<byte>, tgt: seq<byte>)
    requires pat != [] && pat[0] == STAR
    requires SavedPoint(star, pat, tgt)
    ensures Matches(pat, tgt) || LaterStart(star) <==> Matches(pat[1..], tgt) || LaterStart(Some((pat[1..], tgt)))
  {
    var rest := pat[1..];
    assert tgt[0..] == tgt;
    if LaterStart(star) {
      var (resume, from) := star.value;
      var q :| STAR !in q && resume == q + pat && |q| <= |from| && tgt == from[|q|..];
      var j :| 1 <= j <= |from| && Matches(resume, from[j..]);
      LiteralPrefix(q, pat, from[j..]);
      var k :| 0 <= k <= |from[j..][|q|..]| && Matches(rest, from[j..][|q|..][k..]);
      assert from[j..][|q|..][k..] == tgt[j + k..];
    }
  }

  /** At the end of the target a later start is too short for the literals already matched. */
  lemma NoLaterStartAtEnd(star: Option<(seq<byte>, seq<byte>)>, pat: seq<byte>)
    requires SavedPoint(star, pat, [])
    ensures !LaterStart(star)
  {
    if LaterStart(star) {
      var (resume, from) := star.value;
      var q :| STAR !in q && resume == q + pat && |q| <= |from| && [] == from[|q|..];
      var j :| 1 <= j <= |from| && Matches(resume, from[j..]);
      LiteralPrefix(q, pat, from[j..]);
    }
  }

  /** The matched prefix grows by one literal. */
  lemma SavedPointAdvance(star: Option<(seq<byte>, seq<byte>)>, pat: seq<byte>, tgt: seq<byte>)
    requires SavedPoint(star, pat, tgt)
    requires pat != [] && tgt != [] && pat[0] != STAR
    ensures SavedPoint(star, pat[1..], tgt[1..])
  {
    if star.Some? {
      var (resume, from) := star.value;
      var q :| STAR !in q && resume == q + pat && |q| <= |from| && tgt == from[|q|..];
      var q' := q + [pat[0]];
      assert resume == q' + pat[1..] && tgt[1..] == from[|q'|..] && STAR !in q';
    }
  }

  lemma DropMore(s: seq<byte>, j: nat)
    requires 1 <= j <= |s|
    ensures s[1..][j - 1..] == s[j..]
  {
  }

  /** A later start of the last `*` is the next one, or a later start from there. */
  lemma Backtrack(resume: seq<byte>, from: seq<byte>)
    requires from != []
    ensures LaterStart(Some((resume, from))) <==>
      Matches(resume, from[1..]) || LaterStart(Some((resume, from[1..])))
  {
    hide Matches;
    if LaterStart(Some((resume, from))) {
      var j :| 1 <= j <= |from| && Matches(resume, from[j..]);
      DropMore(from, j);
    } else {
      forall j | 1 <= j <= |from[1..]| ensures !Matches(resume, from[1..][j..]) {
        DropMore(from, j + 1);
      }
    }
  }

  /** Where the matcher stands, as `SavedPoint` and `LaterStart` need it. */
  ghost predicate Progress(pattern: seq<byte>, target: seq<byte>,
                           star: Option<(seq<byte>, seq<byte>)>, pat: seq<byte>, tgt: seq<byte>)
  {
    && (Matches(pattern, target) <==> Matches(pat, tgt) || LaterStart(star))
    && SavedPoint(star, pat, tgt)
  }

  lemma ProgressLiteral(pattern: seq<byte>, target: seq<byte>,
                        star: Option<(seq<byte>, seq<byte>)>, pat: seq<byte>, tgt: seq<byte>)
    requires Progress(pattern, target, star, pat, tgt)
    requires pat != [] && tgt != [] && pat[0] != STAR && MatchesByte(pat[0], tgt[0])
    ensures Progress(pattern, target, star, pat[1..], tgt[1..])
  {
    SavedPointAdvance(star, pat, tgt);
  }

  lemma ProgressStar(pattern: seq<byte>, target: seq<byte>,
                     star: Option<(seq<byte>, seq<byte>)>, pat: seq<byte>, tgt: seq<byte>)
    requires Progress(pattern, target, star, pat, tgt)
    requires pat != [] && pat[0] == STAR
    ensures Progress(pattern, target, Some((pat[1..], tgt)), pat[1..], tgt)
  {
    NewStarSubsumes(star, pat, tgt);
    assert pat[1..] == [] + pat[1..] && tgt == tgt[0..];
  }

  lemma ProgressBacktrack(pattern: seq<byte>, target: seq<byte>,
                          star: Option<(seq<byte>, seq<byte>)>, pat: seq<byte>, tgt: seq<byte>)
    requires Progress(pattern, target, star, pat, tgt)
    requires star.Some? && tgt != [] && (pat == [] || (pat[0] != STAR && !MatchesByte(pat[0], tgt[0])))
    ensures star.value.1 != []
    ensures var (resume, from) := star.value;
      Progress(pattern, target, Some((resume, from[1..])), resume, from[1..])
  {
    var (resume, from) := star.value;
    Backtrack(resume, from);
    assert resume == [] + resume && from[1..] == from[1..][0..];
  }

  /** Each byte the last `*` swallowed pays for one walk over the pattern. */
  ghost predicate WithinBudget(steps: nat, swallowed: nat, offset: nat, width: nat) {
    steps <= swallowed * width + offset
  }

  lemma BudgetStar(steps: nat, swallowed: nat, later: nat, offset: nat, width: nat)
    requires WithinBudget(steps, swallowed, offset, width) && swallowed <= later
    ensures WithinBudget(steps + 1, later, offset + 1, width)
  {
    assert swallowed * width <= later * width;
  }

  lemma BudgetBacktrack(steps: nat, swallowed: nat, offset: nat, width: nat, offset': nat)
    requires WithinBudget(steps, swallowed, offset, width) && offset < width
    ensures WithinBudget(steps + 1, swallowed + 1, offset', width)
  {
    assert (swallowed + 1) * width == swallowed * width + width;
  }

  lemma BudgetTotal(steps: nat, swallowed: nat, offset: nat, width: nat, height: nat)
    requires WithinBudget(steps, swallowed, offset, width) && offset < width && swallowed <= height
    ensures steps <= width * (height + 1)
  {
    assert swallowed * width <= height * width;
    assert width * (height + 1) == height * width + width;
  }

  /** `glob_match_bytes`: the verdict of `Matches`, in `(|pattern|+1)*(|target|+1)` steps at most. */
  method GlobMatchBytes(pattern: seq<byte>, target: seq<byte>) returns (matched: bool, ghost steps: nat)
    ensures matched <==> Matches(pattern, target)
    ensures steps <= (|pattern| + 1) * (|target| + 1)
  {
    var pat, tgt := pattern, target;
    var star: Option<(seq<byte>, seq<byte>)> := None;
    ghost var width := |pattern| + 1;
    ghost var swallowed: nat := 0;
    steps := 0;
    while tgt != []
      invariant Progress(pattern, target, star, pat, tgt)
      invariant |tgt| <= |target| && |pat| <= |pattern|
      invariant star.Some? ==> |tgt| <= |star.value.1| <= |target| && |pat| <= |star.value.0| <= |pattern|
      invariant swallowed == if star.Some? then |target| - |star.value.1| else 0
      invariant WithinBudget(steps, swallowed, |pattern| - |pat|, width)
      decreases if star.Some? then |star.value.1| else |target| + 1, |pat|
    {
      if pat != [] && pat[0] == STAR {
        ProgressStar(pattern, target, star, pat, tgt);
        BudgetStar(steps, swallowed, |target| - |tgt|, |pattern| - |pat|, width);
        pat := pat[1..];
        star := Some((pat, tgt));
        swallowed := |target| - |tgt|;
      } else if pat != [] && pat[0] == QUESTION {
        ProgressLiteral(pattern, target, star, pat, tgt);
        pat, tgt := pat[1..], tgt[1..];
      } else if pat != [] && EqIgnoreAsciiCase(pat[0], tgt[0]) {
        ProgressLiteral(pattern, target, star, pat, tgt);
        pat, tgt := pat[1..], tgt[1..];
      } else {
        match star
        case None =>
          BudgetTotal(steps, swallowed, |pattern| - |pat|, width, |target|);
          return false, steps;
        case Some((resume, from)) =>
          ProgressBacktrack(pattern, target, star, pat, tgt);
          BudgetBacktrack(steps, swallowed, |pattern| - |pat|, width, |pattern| - |resume|);
          pat, tgt := resume, from[1..];
          star := Some((resume, tgt));
          swallowed := swallowed + 1;
      }
      steps := steps + 1;
    }
    BudgetTotal(steps, swallowed, |pattern| - |pat|, width, |target|);
    NoLaterStartAtEnd(star, pat);
    MatchesEmpty(pat);
    matched := forall i :: 0 <= i < |pat| ==> pat[i] == STAR;
  }

  predicate Negated(raw: seq<byte>) {
    raw != [] && raw[0] == BANG
  }

  /** What one entry of a pattern list matches, its leading `!` aside. */
  ghost predicate EntryMatches(raw: seq<byte>, lookup: seq<byte>) {
    Matches(if Negated(raw) then raw[1..] else raw, lookup)
  }

  /** `host_matches_patterns`: a set-based verdict, so the order of the list does not matter. */
  method HostMatchesPatterns(patterns: seq<seq<byte>>, lookup: seq<byte>) returns (matched: bool)
    ensures matched <==>
      && (exists raw :: raw in patterns && !Negated(raw) && EntryMatches(raw, lookup))
      && (forall raw :: raw in patterns && Negated(raw) ==> !EntryMatches(raw, lookup))
  {
    var positive := false;
    for i := 0 to |patterns|
      invariant positive <==> exists raw :: raw in patterns[..i] && !Negated(raw) && EntryMatches(raw, lookup)
      invariant forall raw :: raw in patterns[..i] && Negated(raw) ==> !EntryMatches(raw, lookup)
    {
      var raw := patterns[i];
      assert patterns[..i + 1] == patterns[..i] + [raw];
      var negate := Negated(raw);
      var hit, _ := GlobMatchBytes(if negate then raw[1..] else raw, lookup);
      if !hit {
        continue;
      }
      if negate {
        return false;
      }
      positive := true;
    }
    assert patterns[..|patterns|] == patterns;
    matched := positive;
  }
}
