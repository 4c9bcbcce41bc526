/** Persistent-shell names: when two attempts of one job get different ones. */
module ShellNaming {
  import opened Decimal

  /** White space as `str.strip` sees it. */
  predicate IsSpace(c: char) {
    var n := c as int;
    || 9 <= n <= 13 || 28 <= n <= 32 || n == 0x85 || n == 0xa0 || n == 0x1680 || 0x2000 <= n <= 0x200a
    || n == 0x2028 || n == 0x2029 || n == 0x202f || n == 0x205f || n == 0x3000
  }

  predicate IsSafe(c: char) {
    IsDigit(c) || 'A' <= c <= 'Z' || 'a' <= c <= 'z' || c == '_' || c == '.' || c == '-'
  }

  predicate IsTrimmed(c: char) { c == '.' || c == '-' }

  function DropLeft(s: string, p: char -> bool): string {
    if s != "" && p(s[0]) then DropLeft(s[1..], p) else s
  }

  function DropRight(s: string, p: char -> bool): string {
    if s != "" && p(s[|s| - 1]) then DropRight(s[..|s| - 1], p) else s
  }

  function Clean(s: string): (r: string)
    ensures |r| == |s|
    ensures forall i :: 0 <= i < |s| ==> r[i] == if IsSafe(s[i]) then s[i] else '-'
  {
    seq(|s|, i requires 0 <= i < |s| => if IsSafe(s[i]) then s[i] else '-')
  }

  const NAME_LIMIT := 48

  function Cut(s: string): string { if |s| <= NAME_LIMIT then s else s[..NAME_LIMIT] }

  /** `_shell_safe_name`. */
  function ShellSafeName(value: string): string {
    var stripped := DropRight(DropLeft(value, IsSpace), IsSpace);
    var cleaned := DropRight(DropLeft(Cut(Clean(stripped)), IsTrimmed), IsTrimmed);
    if cleaned != "" then cleaned else "job"
  }

  /** The requested name of a later attempt: everything before the number is shared. */
  function RequestedName(prefix: string, n: nat): string { ShellSafeName(prefix + Show(n)) }

  /** The shared part, as it enters the name. */
  function SharedPart(prefix: string): string { Clean(DropLeft(prefix, IsSpace)) }

  lemma {:induction false} DropLeftConcat(a: string, b: string, p: char -> bool)
    requires b != "" && !p(b[0])
    ensures DropLeft(a + b, p) == DropLeft(a, p) + b
    decreases |a|
  {
    if a == "" {
      assert a + b == b;
    } else if p(a[0]) {
      assert (a + b)[1..] == a[1..] + b;
      DropLeftConcat(a[1..], b, p);
    }
  }

  lemma CleanDigits(a: string, d: string)
    requires AllDigits(d)
    ensures Clean(a + d) == Clean(a) + d
  {
  }

  /** What a requested name is before trimming dots and dashes. */
  lemma NameBeforeTrimming(prefix: string, n: nat)
    ensures Clean(DropRight(DropLeft(prefix + Show(n), IsSpace), IsSpace)) == SharedPart(prefix) + Show(n)
  {
    DropLeftConcat(prefix, Show(n), IsSpace);
    var s := DropLeft(prefix, IsSpace) + Show(n);
    assert s[|s| - 1] == Show(n)[|Show(n)| - 1];
    CleanDigits(DropLeft(prefix, IsSpace), Show(n));
  }

  /** While some digit survives the cut, trimming only touches the shared part. */
  lemma TrimKeepsDigits(shared: string, d: string)
    requires d != "" && AllDigits(d)
    ensures DropRight(DropLeft(shared + d, IsTrimmed), IsTrimmed) == DropLeft(shared, IsTrimmed) + d
  {
    DropLeftConcat(shared, d, IsTrimmed);
    var s := DropLeft(shared, IsTrimmed) + d;
    assert s[|s| - 1] == d[|d| - 1];
  }

  lemma CutSplit(shared: string, d: string)
    ensures |shared| >= NAME_LIMIT ==> Cut(shared + d) == shared[..NAME_LIMIT]
    ensures |shared| < NAME_LIMIT ==> Cut(shared + d) == shared + (if |shared| + |d| <= NAME_LIMIT then d else d[..NAME_LIMIT - |shared|])
  {
  }

  /** Two attempts get the same shell name exactly when their names agree on the first 48
      characters. */
  lemma NamesCollideExactlyWhenCut(prefix: string, a: nat, b: nat)
    ensures RequestedName(prefix, a) == RequestedName(prefix, b)
      <==> Cut(SharedPart(prefix) + Show(a)) == Cut(SharedPart(prefix) + Show(b))
  {
    var shared := SharedPart(prefix);
    NameBeforeTrimming(prefix, a);
    NameBeforeTrimming(prefix, b);
    CutSplit(shared, Show(a));
    CutSplit(shared, Show(b));
    if |shared| < NAME_LIMIT {
      var da := if |shared| + |Show(a)| <= NAME_LIMIT then Show(a) else Show(a)[..NAME_LIMIT - |shared|];
      var db := if |shared| + |Show(b)| <= NAME_LIMIT then Show(b) else Show(b)[..NAME_LIMIT - |shared|];
      TrimKeepsDigits(shared, da);
      TrimKeepsDigits(shared, db);
      SameBehind(DropLeft(shared, IsTrimmed), da, db);
      SameBehind(shared, da, db);
    }
  }

  lemma SameBehind(p: string, a: string, b: string)
    ensures p + a == p + b <==> a == b
  {
    assert (p + a)[|p|..] == a && (p + b)[|p|..] == b;
  }

  /** So names are distinct for all attempts whose numbers fit, and all equal when nothing of the
      number is left. */
  lemma NamesDistinctWhenTheyFit(prefix: string, a: nat, b: nat)
    requires a != b
    ensures |SharedPart(prefix)| + |Show(a)| <= NAME_LIMIT && |SharedPart(prefix)| + |Show(b)| <= NAME_LIMIT
      ==> RequestedName(prefix, a) != RequestedName(prefix, b)
    ensures |SharedPart(prefix)| >= NAME_LIMIT ==> RequestedName(prefix, a) == RequestedName(prefix, b)
  {
    NamesCollideExactlyWhenCut(prefix, a, b);
    var shared := SharedPart(prefix);
    CutSplit(shared, Show(a));
    CutSplit(shared, Show(b));
    if |shared| + |Show(a)| <= NAME_LIMIT && |shared| + |Show(b)| <= NAME_LIMIT && shared + Show(a) == shared + Show(b) {
      assert Show(a) == (shared + Show(a))[|shared|..] == (shared + Show(b))[|shared|..] == Show(b);
      ParseShow(a);
      ParseShow(b);
    }
  }

  // ----- the first attempt, whose requested name has no number

  /** Display name and job id, before any number. */
  function FirstName(base: string): string { ShellSafeName(base) }

  function LaterName(base: string, n: nat): string { RequestedName(base + "-", n) }

  /** A job id ends in a character that is kept and not trimmed. */
  predicate EndsInId(base: string) {
    base != "" && IsSafe(base[|base| - 1]) && !IsTrimmed(base[|base| - 1])
  }

  lemma {:induction false} DropLeftKeepsLast(s: string, p: char -> bool)
    requires s != "" && !p(s[|s| - 1])
    ensures DropLeft(s, p) != "" && DropLeft(s, p)[|DropLeft(s, p)| - 1] == s[|s| - 1]
    ensures forall t: string :: DropLeft(s + t, p) == DropLeft(s, p) + t
    decreases |s|
  {
    if p(s[0]) {
      DropLeftKeepsLast(s[1..], p);
      forall t: string ensures DropLeft(s + t, p) == DropLeft(s, p) + t {
        assert (s + t)[1..] == s[1..] + t;
      }
    }
  }

  lemma SharedWithDash(base: string)
    requires EndsInId(base)
    ensures SharedPart(base + "-") == SharedPart(base) + "-"
    ensures SharedPart(base) != "" && SharedPart(base)[|SharedPart(base)| - 1] == base[|base| - 1]
  {
    DropLeftKeepsLast(base, IsSpace);
    assert Clean(DropLeft(base, IsSpace) + "-") == Clean(DropLeft(base, IsSpace)) + "-";
  }

  lemma FirstNameIs(base: string)
    requires EndsInId(base) && |SharedPart(base)| < NAME_LIMIT
    ensures FirstName(base) == DropLeft(SharedPart(base), IsTrimmed)
    ensures FirstName(base) != ""
  {
    SharedWithDash(base);
    NothingBehind(base);
    TrimmedFront(SharedPart(base));
  }

  lemma NothingBehind(base: string)
    requires EndsInId(base)
    ensures Clean(DropRight(DropLeft(base, IsSpace), IsSpace)) == SharedPart(base)
  {
    DropLeftKeepsLast(base, IsSpace);
  }

  lemma TrimmedFront(shared: string)
    requires shared != "" && !IsTrimmed(shared[|shared| - 1]) && |shared| < NAME_LIMIT
    ensures DropRight(DropLeft(Cut(shared), IsTrimmed), IsTrimmed) == DropLeft(shared, IsTrimmed) != ""
  {
    DropLeftKeepsLast(shared, IsTrimmed);
  }

  /** With room for nothing but the dash the number is cut and the dash trimmed. */
  lemma OnlyTheDashFits(base: string, n: nat)
    requires EndsInId(base) && |SharedPart(base)| == NAME_LIMIT - 1
    ensures LaterName(base, n) == FirstName(base)
  {
    var shared := SharedPart(base);
    SharedWithDash(base);
    NameBeforeTrimming(base + "-", n);
    CutSplit(shared + "-", Show(n));
    DropLeftKeepsLast(shared, IsTrimmed);
    var kept := DropLeft(shared, IsTrimmed);
    assert DropLeft(shared + "-", IsTrimmed) == kept + "-";
    assert (kept + "-")[..|kept|] == kept;
    FirstNameIs(base);
    assert (shared + "-")[..NAME_LIMIT] == shared + "-";
  }

  lemma SomeDigitFits(base: string, n: nat)
    requires EndsInId(base) && |SharedPart(base)| < NAME_LIMIT - 1
    ensures |LaterName(base, n)| > |FirstName(base)|
  {
    var shared := SharedPart(base);
    SharedWithDash(base);
    NameBeforeTrimming(base + "-", n);
    CutSplit(shared + "-", Show(n));
    var room := NAME_LIMIT - |shared + "-"|;
    var d := if |Show(n)| <= room then Show(n) else Show(n)[..room];
    TrimKeepsDigits(shared + "-", d);
    DropLeftKeepsLast(shared, IsTrimmed);
    assert DropLeft(shared + "-", IsTrimmed) == DropLeft(shared, IsTrimmed) + "-";
    FirstNameIs(base);
  }

  /** The first attempt and a later one get the same shell name exactly when the cut leaves no room for a
      digit behind the dash. */
  lemma FirstNameCollidesExactlyWhenCut(base: string, n: nat)
    requires EndsInId(base)
    ensures LaterName(base, n) == FirstName(base) <==> |SharedPart(base)| >= NAME_LIMIT - 1
  {
    var shared := SharedPart(base);
    if |shared| < NAME_LIMIT - 1 {
      SomeDigitFits(base, n);
    } else if |shared| == NAME_LIMIT - 1 {
      OnlyTheDashFits(base, n);
    } else {
      NothingMoreFits(base, n);
    }
  }

  lemma NothingMoreFits(base: string, n: nat)
    requires EndsInId(base) && |SharedPart(base)| >= NAME_LIMIT
    ensures LaterName(base, n) == FirstName(base)
  {
    var shared := SharedPart(base);
    SharedWithDash(base);
    NameBeforeTrimming(base + "-", n);
    DropLeftKeepsLast(base, IsSpace);
    assert Cut(shared) == shared[..NAME_LIMIT];
    assert Cut(shared + "-" + Show(n)) == shared[..NAME_LIMIT];
  }

  // ----- what names look like

  /** ASCII letters, digits, underscore, dot and dash, by their codes. */
  predicate Plain(c: char) {
    var n := c as int;
    48 <= n <= 57 || 65 <= n <= 90 || 97 <= n <= 122 || n == 95 || n == 46 || n == 45
  }

  lemma {:induction false} DropLeftIs(s: string, p: char -> bool)
    ensures var r := DropLeft(s, p); |r| <= |s| && r == s[|s| - |r|..] && (r != "" ==> !p(r[0]))
    decreases |s|
  {
    if s != "" && p(s[0]) {
      DropLeftIs(s[1..], p);
      assert forall k: nat :: k < |s| ==> s[1..][k..] == s[k + 1..];
    }
  }

  lemma {:induction false} DropRightIs(s: string, p: char -> bool)
    ensures var r := DropRight(s, p); |r| <= |s| && r == s[..|r|] && (r != "" ==> !p(r[|r| - 1]))
    decreases |s|
  {
    if s != "" && p(s[|s| - 1]) { DropRightIs(s[..|s| - 1], p); }
  }

  /** Every name is plain, not empty, at most 48 long, and neither starts nor ends with a dot or a dash. */
  lemma NamesArePlain(value: string)
    ensures var r := ShellSafeName(value);
      && 1 <= |r| <= 48 && (forall k :: 0 <= k < |r| ==> Plain(r[k]))
      && r[0] !in {'.', '-'} && r[|r| - 1] !in {'.', '-'}
  {
    var cut := Cut(Clean(DropRight(DropLeft(value, IsSpace), IsSpace)));
    CutIsPlain(DropRight(DropLeft(value, IsSpace), IsSpace));
    TrimmedIsPlain(cut);
  }

  lemma CutIsPlain(s: string)
    ensures var cut := Cut(Clean(s)); |cut| <= 48 && forall k :: 0 <= k < |cut| ==> Plain(cut[k])
  {
    var cut, clean := Cut(Clean(s)), Clean(s);
    forall k | 0 <= k < |cut| ensures Plain(cut[k]) { assert cut[k] == clean[k]; }
  }

  lemma TrimmedIsPlain(cut: string)
    requires forall k :: 0 <= k < |cut| ==> Plain(cut[k])
    ensures var r := DropRight(DropLeft(cut, IsTrimmed), IsTrimmed);
      && |r| <= |cut| && (forall k :: 0 <= k < |r| ==> Plain(r[k]))
      && (r != "" ==> r[0] !in {'.', '-'} && r[|r| - 1] !in {'.', '-'})
  {
    var left := DropLeft(cut, IsTrimmed);
    DropLeftIs(cut, IsTrimmed);
    DropRightIs(left, IsTrimmed);
    var r := DropRight(left, IsTrimmed);
    forall k | 0 <= k < |r| ensures Plain(r[k]) { assert r[k] == left[k] == cut[|cut| - |left| + k]; }
    if r != "" { assert r[0] == left[0]; }
  }

  /** A plain name that fits and has nothing to trim stays as it is. */
  lemma PlainNamesStay(s: string)
    requires 1 <= |s| <= 48 && forall k :: 0 <= k < |s| ==> Plain(s[k])
    requires s[0] !in {'.', '-'} && s[|s| - 1] !in {'.', '-'}
    ensures ShellSafeName(s) == s
  {
    assert Clean(s) == s;
  }

  lemma {:induction false} SpaceDropped(left: string, s: string)
    requires (forall k :: 0 <= k < |left| ==> IsSpace(left[k])) && (s == "" || !IsSpace(s[0]))
    ensures DropLeft(left + s, IsSpace) == s
    decreases |left|
  {
    if left == "" {
      assert left + s == s;
    } else {
      assert (left + s)[1..] == left[1..] + s;
      SpaceDropped(left[1..], s);
    }
  }

  lemma {:induction false} SpaceDroppedBehind(s: string, right: string)
    requires (forall k :: 0 <= k < |right| ==> IsSpace(right[k])) && (s == "" || !IsSpace(s[|s| - 1]))
    ensures DropRight(s + right, IsSpace) == s
    decreases |right|
  {
    if right == "" {
      assert s + right == s;
    } else {
      assert (s + right)[..|s + right| - 1] == s + right[..|right| - 1];
      SpaceDroppedBehind(s, right[..|right| - 1]);
    }
  }

  /** White space around a name does not matter. */
  lemma SpaceAroundDropsOut(left: string, s: string, right: string)
    requires (forall k :: 0 <= k < |left| ==> IsSpace(left[k])) && (forall k :: 0 <= k < |right| ==> IsSpace(right[k]))
    requires s != "" && !IsSpace(s[0]) && !IsSpace(s[|s| - 1])
    ensures ShellSafeName(left + s + right) == ShellSafeName(s)
  {
    assert left + s + right == left + (s + right);
    SpaceDropped(left, s + right);
    SpaceDroppedBehind(s, right);
    SpaceDropped("", s);
    SpaceDroppedBehind(s, "");
    assert s + "" == s && "" + s == s;
  }
}
