/** The numeric helpers and the device test of src/utils/performance.js.

    `isMobile` reads `navigator.userAgent` and `window.innerWidth`; both are
    parameters here. */
module Performance {
  import opened RealArith

  /** `Math.min` and `Math.max` on reals (no NaN). */
  function Min(a: real, b: real): real { if a <= b then a else b }
  function Max(a: real, b: real): real { if a >= b then a else b }

  /** `lerp(start, end, factor)`. */
  function Lerp(a: real, b: real, t: real): (r: real)
    ensures t == 0.0 ==> r == a
    ensures t == 1.0 ==> r == b
  {
    a + (b - a) * t
  }

  /** A blend with 0 <= t <= 1 stays between its two ends. */
  lemma LerpBetween(a: real, b: real, t: real)
    requires 0.0 <= t <= 1.0
    ensures Min(a, b) <= Lerp(a, b, t) <= Max(a, b)
  {
    if a <= b {
      MulNonNeg(b - a, t);
      MulAtMost(b - a, t);
    } else {
      MulNonNeg(a - b, t);
      MulAtMost(a - b, t);
      assert (b - a) * t == -((a - b) * t);
    }
  }

  /** `clamp(value, min, max)`, i.e. `Math.max(min, Math.min(max, value))`.
      With `min > max` the outer `max` wins and the result is `min`. */
  function Clamp(value: real, min: real, max: real): (r: real)
    ensures min <= max ==> min <= r <= max
    ensures min <= value <= max ==> r == value
    ensures max < min ==> r == min
    ensures value < min ==> r == min
    ensures min <= max < value ==> r == max
  {
    Max(min, Min(max, value))
  }

  /** Clamping twice is clamping once. */
  lemma ClampIdempotent(value: real, min: real, max: real)
    ensures Clamp(Clamp(value, min, max), min, max) == Clamp(value, min, max)
  {
  }

  /** The alternatives of the user-agent pattern
      `/Android|webOS|iPhone|iPad|iPod|BlackBerry|IEMobile|Opera Mini/i`. */
  const MobileAgents: seq<string> :=
    ["Android", "webOS", "iPhone", "iPad", "iPod", "BlackBerry", "IEMobile", "Opera Mini"]

  /** Width below which any browser counts as mobile. */
  const MobileWidth: int := 768

  /** Case folding of the `i` flag. Without the `u` flag a character folds to
      an ASCII letter only if it is one, so folding ASCII letters is exact for
      these ASCII alternatives. */
  function Fold(c: char): char {
    if 'A' <= c <= 'Z' then (c as int - 'A' as int + 'a' as int) as char else c
  }

  /** `pat` occurs in `s` at offset `i`, ignoring case. */
  predicate MatchesAt(s: string, pat: string, i: nat) {
    i + |pat| <= |s| && forall j | 0 <= j < |pat| :: Fold(s[i + j]) == Fold(pat[j])
  }

  /** `pat` occurs somewhere in `s`, ignoring case. */
  predicate ContainsFold(s: string, pat: string) {
    exists i: nat | i <= |s| :: MatchesAt(s, pat, i)
  }

  /** Whether the pattern alternative matches at offset `i`, checked character by character. */
  method MatchAt(s: string, pat: string, i: nat) returns (ok: bool)
    ensures ok <==> MatchesAt(s, pat, i)
  {
    if i + |pat| > |s| {
      return false;
    }
    var j := 0;
    while j < |pat|
      invariant 0 <= j <= |pat|
      invariant forall m | 0 <= m < j :: Fold(s[i + m]) == Fold(pat[m])
    {
      if Fold(s[i + j]) != Fold(pat[j]) {
        return false;
      }
      j := j + 1;
    }
    return true;
  }

  /** The regular-expression search for one alternative, trying every start offset. */
  method Search(s: string, pat: string) returns (found: bool)
    ensures found <==> ContainsFold(s, pat)
  {
    var i := 0;
    while i <= |s|
      invariant 0 <= i <= |s| + 1
      invariant forall m: nat | m < i :: !MatchesAt(s, pat, m)
    {
      var ok := MatchAt(s, pat, i);
      if ok {
        return true;
      }
      i := i + 1;
    }
    return false;
  }

  /** The user-agent test: some alternative occurs in the agent string. */
  method MobileAgent(ua: string) returns (mobile: bool)
    ensures mobile <==> exists k | 0 <= k < |MobileAgents| :: ContainsFold(ua, MobileAgents[k])
  {
    var k := 0;
    while k < |MobileAgents|
      invariant 0 <= k <= |MobileAgents|
      invariant forall m | 0 <= m < k :: !ContainsFold(ua, MobileAgents[m])
    {
      var found := Search(ua, MobileAgents[k]);
      if found {
        return true;
      }
      k := k + 1;
    }
    return false;
  }

  /** `isMobile()`: a mobile user agent, or a window narrower than 768 pixels
      whatever the agent. */
  method IsMobile(ua: string, width: int) returns (mobile: bool)
    ensures width < MobileWidth ==> mobile
    ensures mobile <==> width < MobileWidth
                        || exists k | 0 <= k < |MobileAgents| :: ContainsFold(ua, MobileAgents[k])
  {
    mobile := MobileAgent(ua);
    mobile := mobile || width < MobileWidth;
  }
}
