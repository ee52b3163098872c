/**
 Keys built from parts with slashes between them.
 */
module Paths {

  ghost predicate NoSlash(s: string) {
    forall i | 0 <= i < |s| :: s[i] != '/'
  }

  ghost predicate LastSlash(s: string, k: int) {
    0 <= k < |s| && s[k] == '/' && forall j | k < j < |s| :: s[j] != '/'
  }

  lemma SlashBeforeName(a: string, m: string)
    requires NoSlash(m)
    ensures LastSlash(a + "/" + m, |a|) && (a + "/" + m)[|a| + 1..] == m
  {
    var s := a + "/" + m;
    forall j | |a| < j < |s| ensures s[j] != '/' {
      assert s[j] == m[j - |a| - 1];
    }
  }

  lemma LastPartDecides(a: string, b: string, m: string, n: string)
    requires a + "/" + m == b + "/" + n && NoSlash(m) && NoSlash(n)
    ensures m == n
  {
    SlashBeforeName(a, m);
    SlashBeforeName(b, n);
  }

  ghost predicate FirstSlash(s: string, k: int) {
    0 <= k < |s| && s[k] == '/' && forall j | 0 <= j < k :: s[j] != '/'
  }

  lemma SlashAfterPart(m: string, a: string)
    requires NoSlash(m)
    ensures FirstSlash(m + "/" + a, |m|)
    ensures (m + "/" + a)[..|m|] == m && (m + "/" + a)[|m| + 1..] == a
  {
    var s := m + "/" + a;
    forall j | 0 <= j < |m| ensures s[j] != '/' {
      assert s[j] == m[j];
    }
  }

  lemma FirstSlashInPrefix(s: string, t: string, k: int)
    requires s <= t && FirstSlash(s, k)
    ensures FirstSlash(t, k) && t[..k] == s[..k]
  {
  }

  /** Two texts agreeing up to a part's slash agree on the part. */
  lemma FirstPartAgrees(m: string, a: string, n: string, b: string)
    requires NoSlash(m) && NoSlash(n) && m + "/" + a <= n + "/" + b
    ensures m == n && a <= b
  {
    SlashAfterPart(m, a);
    SlashAfterPart(n, b);
    var s, t := m + "/" + a, n + "/" + b;
    FirstSlashInPrefix(s, t, |m|);
    assert t[|m| + 1..][..|a|] == a;
  }
}
