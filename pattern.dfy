/** The fragment of JavaScript regular expressions the core uses for its
    validators: an anchored pattern `^…$` that is a concatenation of
    single-character classes such as `[6-9]`, `\d` or `[0-9]`, with bounded
    repetition `{n}` written out. */
module Pattern {

  /** A bracket range `[lo-hi]`. */
  datatype CharClass = Span(lo: char, hi: char) {
    predicate Contains(c: char) {
      lo <= c <= hi
    }
  }

  /** `\d` without the `u` flag, and `[0-9]`: the ASCII digits. */
  const Digit: CharClass := Span('0', '9')

  /** `k{n}`: the class `k` repeated `n` times. */
  function Repeat(k: CharClass, n: nat): (p: seq<CharClass>)
    ensures |p| == n
    ensures forall i :: 0 <= i < n ==> p[i] == k
  {
    if n == 0 then [] else [k] + Repeat(k, n - 1)
  }

  /** `RegExp.prototype.test` for `^p$`: the whole string is consumed, one
      character per class. */
  predicate FullMatch(p: seq<CharClass>, s: string)
  {
    if p == [] then s == []
    else s != [] && p[0].Contains(s[0]) && FullMatch(p[1..], s[1..])
  }

  /** A full match is a position-by-position membership test. */
  lemma {:induction false} FullMatchPointwise(p: seq<CharClass>, s: string)
    ensures FullMatch(p, s) <==> |s| == |p| && forall i :: 0 <= i < |s| ==> p[i].Contains(s[i])
  {
    if p != [] && s != [] {
      FullMatchPointwise(p[1..], s[1..]);
      if |s| == |p| && forall i :: 0 <= i < |s| ==> p[i].Contains(s[i]) {
        assert forall i :: 0 <= i < |s[1..]| ==> p[1..][i].Contains(s[1..][i]) by {
          forall i | 0 <= i < |s[1..]| ensures p[1..][i].Contains(s[1..][i]) {
            assert p[1..][i] == p[i + 1] && s[1..][i] == s[i + 1];
          }
        }
      }
      if FullMatch(p, s) {
        forall i | 0 <= i < |s| ensures p[i].Contains(s[i]) {
          if i > 0 {
            assert p[1..][i - 1] == p[i] && s[1..][i - 1] == s[i];
          }
        }
      }
    }
  }
}
