/** The Origin pattern matcher: a loop that remembers only the last star,
    against the recursive meaning of a pattern. */
module Glob {
  import opened Basics

  const STAR: Byte := '*' as int
  const QUESTION: Byte := '?' as int
  const SLASH: Byte := '/' as int

  /** A pattern byte other than `*` against one subject byte. */
  predicate One(p: Byte, b: Byte) {
    if p == QUESTION then b != SLASH else p == b
  }

  predicate SlashFree(s: seq<Byte>, from: nat, to: nat)
    requires to <= |s|
  {
    forall i :: from <= i < to ==> s[i] != SLASH
  }

  /** The meaning of the pattern `p[i..]` on the subject `s[j..]`: `*` stands for any
      run without '/', `?` for any one byte but '/', every other byte for itself. */
  ghost predicate Matches(p: seq<Byte>, i: nat, s: seq<Byte>, j: nat)
    requires i <= |p| && j <= |s|
    decreases |p| - i
  {
    if i == |p| then
      j == |s|
    else if p[i] == STAR then
      exists k :: j <= k <= |s| && SlashFree(s, j, k) && Matches(p, i + 1, s, k)
    else
      j < |s| && One(p[i], s[j]) && Matches(p, i + 1, s, j + 1)
  }

  ghost predicate Means(p: seq<Byte>, s: seq<Byte>) {
    Matches(p, 0, s, 0)
  }

  /** What is left of the pattern and of the subject decides. */
  lemma {:induction false} SameRest(p: seq<Byte>, i: nat, s: seq<Byte>, j: nat, q: seq<Byte>, k: nat, t: seq<Byte>,
                                    l: nat)
    requires i <= |p| && j <= |s| && k <= |q| && l <= |t| && p[i..] == q[k..] && s[j..] == t[l..]
    ensures Matches(p, i, s, j) ==> Matches(q, k, t, l)
    decreases |p| - i
  {
    if i < |p| && Matches(p, i, s, j) {
      assert p[i] == p[i..][0] == q[k..][0] == q[k];
      assert p[i + 1..] == p[i..][1..] && q[k + 1..] == q[k..][1..];
      if p[i] == STAR {
        var m :| j <= m <= |s| && SlashFree(s, j, m) && Matches(p, i + 1, s, m);
        var n := m - j + l;
        assert s[m..] == s[j..][m - j..] && t[n..] == t[l..][n - l..];
        assert SlashFree(t, l, n) by {
          assert forall x :: l <= x < n ==> t[x] == t[l..][x - l] == s[j..][x - l] == s[x - l + j];
        }
        SameRest(p, i + 1, s, m, q, k + 1, t, n);
        assert q[k] == STAR && l <= n <= |t| && SlashFree(t, l, n) && Matches(q, k + 1, t, n);
      } else {
        assert s[j] == s[j..][0] == t[l..][0] == t[l];
        assert s[j + 1..] == s[j..][1..] && t[l + 1..] == t[l..][1..];
        SameRest(p, i + 1, s, j + 1, q, k + 1, t, l + 1);
      }
    }
  }

  /** `p[i..]` takes `s` from `j` to `k`, and `q` the rest. */
  ghost predicate CutAt(p: seq<Byte>, q: seq<Byte>, i: nat, s: seq<Byte>, j: nat, k: nat)
    requires i <= |p| && j <= k <= |s|
  {
    Matches(p, i, s[..k], j) && Matches(p + q, |p|, s, k)
  }

  ghost predicate Cuts(p: seq<Byte>, q: seq<Byte>, i: nat, s: seq<Byte>, j: nat)
    requires i <= |p| && j <= |s|
  {
    exists k :: j <= k <= |s| && CutAt(p, q, i, s, j, k)
  }

  lemma {:induction false} CutSomewhere(p: seq<Byte>, q: seq<Byte>, i: nat, s: seq<Byte>, j: nat)
    requires i <= |p| && j <= |s|
    ensures Matches(p + q, i, s, j) <==> Cuts(p, q, i, s, j)
    decreases |p| - i
  {
    if i == |p| {
      assert Matches(p + q, i, s, j) ==> CutAt(p, q, i, s, j, j);
    } else if p[i] == STAR {
      var n := i + 1;
      forall m | j <= m <= |s|
        ensures Matches(p + q, n, s, m) <==> Cuts(p, q, n, s, m)
      {
        CutSomewhere(p, q, n, s, m);
      }
      if Matches(p + q, i, s, j) {
        var m :| j <= m <= |s| && SlashFree(s, j, m) && Matches(p + q, i + 1, s, m);
        var k :| m <= k <= |s| && CutAt(p, q, i + 1, s, m, k);
        assert SlashFree(s[..k], j, m);
        assert CutAt(p, q, i, s, j, k);
      }
      if k :| j <= k <= |s| && CutAt(p, q, i, s, j, k) {
        var m :| j <= m <= k && SlashFree(s[..k], j, m) && Matches(p, i + 1, s[..k], m);
        assert SlashFree(s, j, m) && CutAt(p, q, i + 1, s, m, k);
      }
    } else if j < |s| {
      CutSomewhere(p, q, i + 1, s, j + 1);
      forall k | j <= k <= |s|
        ensures CutAt(p, q, i, s, j, k) <==> j < k && One(p[i], s[j]) && CutAt(p, q, i + 1, s, j + 1, k)
      {
      }
      if Matches(p + q, i, s, j) {
        var k :| j + 1 <= k <= |s| && CutAt(p, q, i + 1, s, j + 1, k);
        assert CutAt(p, q, i, s, j, k);
      }
    }
  }

  /** A pattern in two parts means the subjects in two such parts. */
  lemma ConcatMeans(p: seq<Byte>, q: seq<Byte>, s: seq<Byte>)
    ensures Means(p + q, s) <==> exists k :: 0 <= k <= |s| && Means(p, s[..k]) && Means(q, s[k..])
  {
    CutSomewhere(p, q, 0, s, 0);
    forall k | 0 <= k <= |s|
      ensures CutAt(p, q, 0, s, 0, k) <==> Means(p, s[..k]) && Means(q, s[k..])
    {
      assert (p + q)[|p|..] == q == q[0..] && s[k..][0..] == s[k..];
      SameRest(p + q, |p|, s, k, q, 0, s[k..], 0);
      SameRest(q, 0, s[k..], 0, p + q, |p|, s, k);
    }
  }

  /** A star alone means the subjects without '/'. */
  lemma StarMeans(s: seq<Byte>)
    ensures Means(['*' as int], s) <==> '/' as int !in s
  {
    var p: seq<Byte> := [STAR];
    assert Matches(p, 1, s, |s|);
    if Means(p, s) {
      var k :| 0 <= k <= |s| && SlashFree(s, 0, k) && Matches(p, 1, s, k);
      assert k == |s|;
    } else {
      assert !SlashFree(s, 0, |s|);
    }
  }

  /** A pattern without stars means the subjects of its length that have its bytes, and anything but
      '/' where it has `?`. */
  lemma StarFreeMeans(p: seq<Byte>, s: seq<Byte>)
    requires '*' as int !in p
    ensures Means(p, s) <==>
              |p| == |s| && forall i :: 0 <= i < |p| ==> if p[i] == '?' as int then s[i] != '/' as int else p[i] == s[i]
  {
    if Means(p, s) {
      StripSegment(p, 0, s, 0, |p|);
    } else if |p| == |s| && Aligned(p, 0, s, 0, |p|) {
      AlignedMatches(p, 0, s);
    }
  }

  lemma {:induction false} AlignedMatches(p: seq<Byte>, i: nat, s: seq<Byte>)
    requires i <= |p| == |s| && Aligned(p, i, s, i, |p| - i)
    ensures Matches(p, i, s, i)
    decreases |p| - i
  {
    if i < |p| { AlignedMatches(p, i + 1, s); }
  }

  /** The star-free `p[i..i + n]` stands for exactly `s[j..j + n]`. */
  predicate Aligned(p: seq<Byte>, i: nat, s: seq<Byte>, j: nat, n: nat) {
    && i + n <= |p| && j + n <= |s|
    && forall x :: i <= x < i + n ==> p[x] != STAR && One(p[x], s[j + (x - i)])
  }

  /** Some match in which the star at `sp` runs from `ss` to beyond it. */
  ghost predicate Later(p: seq<Byte>, s: seq<Byte>, sp: nat, ss: nat)
    requires sp < |p| && ss <= |s|
  {
    exists k :: ss < k <= |s| && SlashFree(s, ss, k) && Matches(p, sp + 1, s, k)
  }

  /** Matching consumes a star-free stretch of the pattern byte for byte. */
  lemma {:induction false} StripSegment(p: seq<Byte>, i: nat, s: seq<Byte>, j: nat, n: nat)
    requires i + n <= |p| && j <= |s| && Matches(p, i, s, j)
    requires forall x :: i <= x < i + n ==> p[x] != STAR
    ensures Aligned(p, i, s, j, n) && Matches(p, i + n, s, j + n)
    decreases n
  {
    if n > 0 {
      StripSegment(p, i + 1, s, j + 1, n - 1);
    }
  }

  /** The segment between two stars, matched at `ss` and again at a later `k` that
      the first star can reach: everything between the two ends is free of '/'. */
  lemma SlashFreeBetween(p: seq<Byte>, i: nat, s: seq<Byte>, ss: nat, k: nat, n: nat)
    requires ss < k && Aligned(p, i, s, ss, n) && Aligned(p, i, s, k, n) && SlashFree(s, ss, k)
    ensures SlashFree(s, ss, k + n)
  {
    var j := 0;
    while j < n
      invariant 0 <= j <= n && SlashFree(s, ss, k + j)
    {
      // A '/' at k + j would need a literal '/' in the segment, hence one at ss + j < k + j.
      assert One(p[i + j], s[k + j]) && One(p[i + j], s[ss + j]);
      j := j + 1;
    }
  }

  /** Giving up an older star loses nothing: whatever it could still reach, the
      newer star at `pi` reaches from `si`. */
  lemma NewerStarSuffices(p: seq<Byte>, s: seq<Byte>, sp: nat, ss: nat, pi: nat, si: nat)
    requires sp < pi < |p| && ss <= si <= |s| && p[pi] == STAR
    requires pi - sp - 1 == si - ss && Aligned(p, sp + 1, s, ss, si - ss)
    requires Later(p, s, sp, ss)
    ensures Matches(p, pi, s, si)
  {
    var n := si - ss;
    var k :| ss < k <= |s| && SlashFree(s, ss, k) && Matches(p, sp + 1, s, k);
    StripSegment(p, sp + 1, s, k, n);
    SlashFreeBetween(p, sp + 1, s, ss, k, n);
    // The star at pi runs from si to k + n and on as it did before.
    var e :| k + n <= e <= |s| && SlashFree(s, k + n, e) && Matches(p, pi + 1, s, e);
    assert SlashFree(s, si, e);
  }

  /** Moving the last star one byte on. */
  lemma StepStar(p: seq<Byte>, s: seq<Byte>, sp: nat, ss: nat)
    requires sp < |p| && ss < |s|
    ensures Later(p, s, sp, ss) <==>
            s[ss] != SLASH && (Matches(p, sp + 1, s, ss + 1) || Later(p, s, sp, ss + 1))
  {
    forall k | ss < k <= |s|
      ensures SlashFree(s, ss, k) <==> s[ss] != SLASH && SlashFree(s, ss + 1, k)
    {
    }
    if s[ss] != SLASH && Matches(p, sp + 1, s, ss + 1) {
      assert SlashFree(s, ss, ss + 1);
    }
    if Later(p, s, sp, ss) {
      var k :| ss < k <= |s| && SlashFree(s, ss, k) && Matches(p, sp + 1, s, k);
      assert k == ss + 1 || Later(p, s, sp, ss + 1);
    }
    if s[ss] != SLASH && Later(p, s, sp, ss + 1) {
      var k :| ss + 1 < k <= |s| && SlashFree(s, ss + 1, k) && Matches(p, sp + 1, s, k);
      assert SlashFree(s, ss, k);
    }
  }

  /** A star met at `pi`: it is empty, or it eats some of what follows. */
  lemma MeetStar(p: seq<Byte>, s: seq<Byte>, pi: nat, si: nat)
    requires pi < |p| && si <= |s| && p[pi] == STAR
    ensures Matches(p, pi, s, si) <==> Matches(p, pi + 1, s, si) || Later(p, s, pi, si)
  {
    assert SlashFree(s, si, si);
  }

  /** Against the empty subject only stars match. */
  lemma {:induction false} EmptySubject(p: seq<Byte>, i: nat, s: seq<Byte>)
    requires i <= |p|
    ensures Matches(p, i, s, |s|) <==> forall x :: i <= x < |p| ==> p[x] == STAR
    decreases |p| - i
  {
    if i < |p| {
      EmptySubject(p, i + 1, s);
      assert SlashFree(s, |s|, |s|);
    }
  }

  /** Once the subject is used up, an older star has nowhere left to go. */
  lemma NoLaterAtEnd(p: seq<Byte>, s: seq<Byte>, sp: nat, ss: nat, pi: nat)
    requires sp < pi <= |p| && ss <= |s|
    requires pi - sp - 1 == |s| - ss && Aligned(p, sp + 1, s, ss, |s| - ss)
    ensures !Later(p, s, sp, ss)
  {
    if Later(p, s, sp, ss) {
      var k :| ss < k <= |s| && SlashFree(s, ss, k) && Matches(p, sp + 1, s, k);
      StripSegment(p, sp + 1, s, k, |s| - ss);
      assert false;
    }
  }

  datatype Star = NoStar | At(sp: nat, ss: nat)

  /** The older star of the loop, if any, and the segment matched since it. */
  ghost predicate Remembered(p: seq<Byte>, s: seq<Byte>, star: Star, pi: nat, si: nat) {
    star.At? ==>
      && star.sp < pi <= |p| && star.ss <= si <= |s| && p[star.sp] == STAR
      && pi - star.sp - 1 == si - star.ss
      && Aligned(p, star.sp + 1, s, star.ss, si - star.ss)
  }

  /** What is still possible: the current attempt, or a longer run of the last star. */
  ghost predicate Possible(p: seq<Byte>, s: seq<Byte>, star: Star, pi: nat, si: nat)
    requires pi <= |p| && si <= |s| && Remembered(p, s, star, pi, si)
  {
    Matches(p, pi, s, si) || (star.At? && Later(p, s, star.sp, star.ss))
  }

  lemma ByteStep(p: seq<Byte>, s: seq<Byte>, star: Star, pi: nat, si: nat)
    requires pi < |p| && si < |s| && Remembered(p, s, star, pi, si)
    requires p[pi] != STAR && One(p[pi], s[si])
    ensures Remembered(p, s, star, pi + 1, si + 1)
    ensures Possible(p, s, star, pi + 1, si + 1) == Possible(p, s, star, pi, si)
  {
  }

  /** A byte that the pattern does not have here, and no star either. */
  lemma Stuck(p: seq<Byte>, s: seq<Byte>, pi: nat, si: nat)
    requires pi <= |p| && si < |s| && (pi < |p| ==> p[pi] != STAR && !One(p[pi], s[si]))
    ensures !Matches(p, pi, s, si)
  {
  }

  lemma StarStep(p: seq<Byte>, s: seq<Byte>, star: Star, pi: nat, si: nat)
    requires pi < |p| && si <= |s| && Remembered(p, s, star, pi, si) && p[pi] == STAR
    ensures Remembered(p, s, At(pi, si), pi + 1, si)
    ensures Possible(p, s, At(pi, si), pi + 1, si) == Possible(p, s, star, pi, si)
  {
    if star.At? && Later(p, s, star.sp, star.ss) {
      NewerStarSuffices(p, s, star.sp, star.ss, pi, si);
    }
    MeetStar(p, s, pi, si);
  }

  /** True exactly when the pattern means the subject. */
  method GlobMatch(p: seq<Byte>, s: seq<Byte>) returns (r: bool)
    ensures r <==> Means(p, s)
  {
    hide Matches, Later;
    var pi, si := 0, 0;
    var star := NoStar;
    while si < |s|
      invariant 0 <= pi <= |p| && 0 <= si <= |s|
      invariant Remembered(p, s, star, pi, si)
      invariant Matches(p, 0, s, 0) <==> Possible(p, s, star, pi, si)
      // A new star is further right; a retry moves the last one along the subject.
      decreases match star case NoStar => |p| + 1 case At(sp, _) => |p| - sp,
                match star case NoStar => 0 case At(_, ss) => |s| - ss,
                |p| - pi
    {
      if pi < |p| && ((p[pi] == QUESTION && s[si] != SLASH) || (p[pi] == s[si] && p[pi] != STAR)) {
        ByteStep(p, s, star, pi, si);
        pi := pi + 1;
        si := si + 1;
      } else if pi < |p| && p[pi] == STAR {
        StarStep(p, s, star, pi, si);
        star := At(pi, si);
        pi := pi + 1;
      } else if star.At? {
        Stuck(p, s, pi, si);
        StepStar(p, s, star.sp, star.ss);
        if s[star.ss] == SLASH {
          return false;
        }
        pi := star.sp + 1;
        si := star.ss + 1;
        star := At(star.sp, star.ss + 1);
      } else {
        Stuck(p, s, pi, si);
        return false;
      }
    }
    if star.At? {
      NoLaterAtEnd(p, s, star.sp, star.ss, pi);
    }
    EmptySubject(p, pi, s);
    while pi < |p| && p[pi] == STAR
      invariant 0 <= pi <= |p|
      invariant Matches(p, 0, s, 0) <==> forall x :: pi <= x < |p| ==> p[x] == STAR
    {
      pi := pi + 1;
    }
    return pi == |p|;
  }
}
