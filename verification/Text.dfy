/** Text inside text, and numbers written in decimal. */
module Text {
  /** `what` stands in `b` at position `at`. */
  predicate Matches(b: string, at: nat, what: string) {
    at + |what| <= |b| && forall k :: 0 <= k < |what| ==> b[at + k] == what[k]
  }

  lemma MatchesConcat(b: string, at: nat, s: string, t: string)
    requires Matches(b, at, s + t)
    ensures Matches(b, at, s) && Matches(b, at + |s|, t)
  {
    forall k | 0 <= k < |s| ensures b[at + k] == s[k] { assert (s + t)[k] == s[k]; }
    forall k | 0 <= k < |t| ensures b[at + |s| + k] == t[k] { assert (s + t)[|s| + k] == t[k]; }
  }

  function Numeral(n: nat): (s: string)
    ensures s != "" && forall k :: 0 <= k < |s| ==> '0' <= s[k] <= '9'
  {
    if n < 10 then [('0' as int + n) as char] else Numeral(n / 10) + [('0' as int + n % 10) as char]
  }
}
