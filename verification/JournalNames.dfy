/** Journal file names: why sorting the directory by name replays updates in issue order. */
module JournalNames {
  import opened Common
  import opened Decimal
  import opened JobState
  import opened Journal

  function FileNames(journal: seq<Entry>): seq<string> {
    seq(|journal|, i requires 0 <= i < |journal| => FileName(journal[i].id))
  }

  /** The length of the longer of the padding and a number. */
  function DigitsOf(n: nat, width: nat): nat { if |Show(n)| < width then width else |Show(n)| }

  function Rest(id: UpdateId): string { "-" + Padded(id.stamp, SEQUENCE_WIDTH) + "-" + id.nonce }

  /** Past the padding a smaller number sorts by the larger number's leading digits. */
  predicate LeadsBehind(a: nat, b: nat, width: nat) {
    var wide, long := DigitsOf(a, width), |Show(b)|;
    long <= wide || a <= WithoutLast(b, long - wide)
  }

  /** How the names of a smaller and a larger sequence number compare: as the numbers, while they have
      the same length; and past the padding by the larger number's leading digits. */
  lemma NameOrderIs(a: UpdateId, b: UpdateId)
    requires a.sequence < b.sequence
    ensures NamedBefore(a, b) <==> LeadsBehind(a.sequence, b.sequence, SEQUENCE_WIDTH)
  {
    DigitStringOrder(a.sequence, b.sequence, Rest(a), Rest(b), SEQUENCE_WIDTH);
  }

  /** The same for the digit strings of any padding, whatever follows them after a dash. */
  lemma DigitStringOrder(a: nat, b: nat, x: string, y: string, width: nat)
    requires a < b && width > 0 && x != "" && y != "" && x[0] == '-'
    ensures Before(Padded(a, width) + x, Padded(b, width) + y) <==> LeadsBehind(a, b, width)
  {
    PaddedIsItsDigits(a, width);
    PaddedIsItsDigits(b, width);
    if |Show(b)| <= DigitsOf(a, width) {
      LongerIsLarger(a, b);
      SameLengthOrder(a, b, DigitsOf(a, width), x, y);
    } else {
      var wide := DigitsOf(a, width);
      var m: nat := |Show(b)| - wide;
      LeadingOrder(a, b, wide, m, Fixed(b, wide + m), WithoutLast(b, m), x, y);
    }
  }

  lemma SameLengthOrder(a: nat, b: nat, k: nat, x: string, y: string)
    requires a < b < Pow10(k)
    ensures Before(Fixed(a, k) + x, Fixed(b, k) + y)
  {
    FixedOrder(a, b, k);
    BeforeExtends(Fixed(a, k), Fixed(b, k), x, y);
  }

  lemma LeadingOrder(a: nat, b: nat, k: nat, m: nat, digits: string, q: nat, x: string, y: string)
    requires m > 0 && a < Pow10(k) && b < Pow10(k + m) && x != "" && x[0] == '-'
    requires digits == Fixed(b, k + m) && q == WithoutLast(b, m)
    ensures Before(Fixed(a, k) + x, digits + y) <==> a <= q
  {
    LeadingDigits(b, k, m);
    WithoutLastFits(b, k, m);
    LongerOrder(a, q, k, digits, x, y);
  }

  lemma LongerIsLarger(a: nat, b: nat)
    requires a < b
    ensures |Show(a)| <= |Show(b)|
  {
    ShowLength(b, |Show(b)|);
    ShowLength(a, |Show(b)|);
  }

  lemma Rejoin(s: string, k: nat, y: string)
    requires k < |s|
    ensures s + y == s[..k] + (s[k..] + y) && (s[k..] + y)[0] == s[k]
  {
  }

  lemma LongerOrder(a: nat, q: nat, k: nat, digits: string, x: string, y: string)
    requires a < Pow10(k) && q < Pow10(k) && x != "" && x[0] == '-'
    requires k < |digits| && AllDigits(digits) && digits[..k] == Fixed(q, k)
    ensures Before(Fixed(a, k) + x, digits + y) <==> a <= q
  {
    Rejoin(digits, k, y);
    PartingOrder(Fixed(a, k), digits[..k], x, digits[k..] + y);
    FixedOrderIs(a, q, k);
  }

  /** Zero-padded decimal order is numeric order, whatever follows the sequence number. */
  lemma NameOrderIsSequenceOrder(a: UpdateId, b: UpdateId)
    requires a.sequence < b.sequence < Pow10(SEQUENCE_WIDTH)
    ensures NamedBefore(a, b)
  {
    ShowLength(b.sequence, SEQUENCE_WIDTH);
    NameOrderIs(a, b);
  }

  lemma FirstPastTheWidth(n: nat, width: nat)
    requires width > 0 && n == Pow10(width)
    ensures n > 1 && !LeadsBehind(n - 1, n, width)
  {
    var p := Pow10(width - 1);
    Pow10IsPositive(width - 1);
    assert n == 10 * p && Pow10(width + 1) == 10 * n;
    ShowLength(n - 1, width);
    ShowLength(n, width);
    ShowLength(n, width + 1);
    assert WithoutLast(n, 1) == WithoutLast(n / 10, 0) == p < n - 1;
  }

  /** The first number past the width sorts before the one it follows. */
  lemma NameOrderBreaksPastTheWidth(a: UpdateId, b: UpdateId)
    requires b.sequence == Pow10(SEQUENCE_WIDTH) && a.sequence + 1 == b.sequence
    ensures !NamedBefore(a, b) && NamedBefore(b, a)
  {
    FirstPastTheWidth(b.sequence, SEQUENCE_WIDTH);
    NameOrderIs(a, b);
    NamesAreDistinct(a, b);
    BeforeIsTotal(FileName(a), FileName(b));
  }

  ghost predicate AscendingNames(names: seq<string>) {
    forall i, j :: 0 <= i < j < |names| ==> Before(names[i], names[j])
  }

  lemma AscendingFirst(s: seq<string>, t: seq<string>)
    requires AscendingNames(s) && AscendingNames(t) && s != [] && t != []
    requires s[0] in t && t[0] in s
    ensures s[0] == t[0]
  {
    var i :| 0 <= i < |s| && s[i] == t[0];
    var j :| 0 <= j < |t| && t[j] == s[0];
    if i > 0 && j > 0 {
      BeforeIsAsymmetric(s[0], s[i]);
    }
  }

  lemma AscendingRest(s: seq<string>)
    requires AscendingNames(s) && s != []
    ensures s[0] !in s[1..]
  {
    if s[0] in s[1..] {
      var i :| 0 <= i < |s| - 1 && s[1..][i] == s[0];
      assert Before(s[0], s[i + 1]);
      BeforeIsAsymmetric(s[0], s[0]);
    }
  }

  lemma {:induction false} AscendingIsUnique(s: seq<string>, t: seq<string>)
    requires AscendingNames(s) && AscendingNames(t)
    requires |s| == |t| && forall x :: x in s <==> x in t
    ensures s == t
    decreases |s|
  {
    if s != [] {
      assert s[0] in t;
      assert t[0] in s;
      AscendingFirst(s, t);
      AscendingRest(s);
      AscendingRest(t);
      forall x ensures x in s[1..] <==> x in t[1..] {
        assert x in s <==> x == s[0] || x in s[1..];
        assert x in t <==> x == t[0] || x in t[1..];
      }
      AscendingIsUnique(s[1..], t[1..]);
    }
  }

  /** However the directory is enumerated, its sorted listing is the journal. */
  lemma SortedListingIsTheJournal(listing: seq<string>, journal: seq<Entry>)
    requires AscendingNames(FileNames(journal)) && AscendingNames(listing)
    requires |listing| == |journal| && forall x :: x in listing <==> x in FileNames(journal)
    ensures listing == FileNames(journal)
  {
    AscendingIsUnique(listing, FileNames(journal));
  }

  /** The characters before the first `-`. */
  function Prefix(s: string): (p: string)
    ensures |p| <= |s|
  {
    if s == "" || s[0] == '-' then "" else [s[0]] + Prefix(s[1..])
  }

  lemma {:induction false} PrefixOfDigits(d: string, rest: string)
    requires AllDigits(d)
    ensures Prefix(d + ("-" + rest)) == d
    decreases |d|
  {
    if d == "" {
      assert d + ("-" + rest) == "-" + rest;
    } else {
      PrefixOfDigits(d[1..], rest);
      assert (d + ("-" + rest))[1..] == d[1..] + ("-" + rest);
    }
  }

  /** A restarted process reads back from a file name the sequence number it was given. */
  lemma SequenceReadBack(id: UpdateId)
    ensures var p := Prefix(FileName(id));
      AllDigits(p) && Parse(p) == id.sequence
  {
    var rest := Padded(id.stamp, SEQUENCE_WIDTH) + "-" + id.nonce;
    assert "-" + Padded(id.stamp, SEQUENCE_WIDTH) + "-" + id.nonce == "-" + rest;
    PrefixOfDigits(Padded(id.sequence, SEQUENCE_WIDTH), rest);
    ParsePadded(id.sequence, SEQUENCE_WIDTH);
  }

  lemma NamesAreDistinct(a: UpdateId, b: UpdateId)
    requires a != b
    ensures FileName(a) != FileName(b)
  {
    PartsReadBack(a);
    PartsReadBack(b);
  }

  /** Everything after the first dash. */
  function AfterDash(s: string): string {
    var p := Prefix(s);
    if |p| < |s| then s[|p| + 1..] else ""
  }

  lemma FieldReadBack(digits: string, rest: string)
    requires AllDigits(digits)
    ensures Prefix(digits + ("-" + rest)) == digits && AfterDash(digits + ("-" + rest)) == rest
  {
    PrefixOfDigits(digits, rest);
    assert (digits + ("-" + rest))[|digits| + 1..] == rest;
  }

  predicate ReadsAs(s: string, id: UpdateId) {
    && AllDigits(Prefix(s)) && Parse(Prefix(s)) == id.sequence
    && AllDigits(Prefix(AfterDash(s))) && Parse(Prefix(AfterDash(s))) == id.stamp
    && AfterDash(AfterDash(s)) == id.nonce
  }

  /** A name gives back sequence number, clock and suffix. */
  lemma PartsReadBack(id: UpdateId)
    ensures ReadsAs(FileName(id), id)
  {
    var p, q := Padded(id.sequence, SEQUENCE_WIDTH), Padded(id.stamp, SEQUENCE_WIDTH);
    var rest := q + ("-" + id.nonce);
    assert "-" + q + "-" + id.nonce == "-" + rest;
    FieldReadBack(p, rest);
    FieldReadBack(q, id.nonce);
    ParsePadded(id.sequence, SEQUENCE_WIDTH);
    ParsePadded(id.stamp, SEQUENCE_WIDTH);
  }

  /** A new file put in its place keeps the listing sorted. */
  lemma InsertionKeepsNameOrder(journal: seq<Entry>, e: Entry)
    requires AscendingNames(FileNames(journal)) && forall f :: f in journal ==> f.id != e.id
    ensures AscendingNames(FileNames(Inserted(journal, NamePlace(journal, e.id), e)))
  {
    var at, name := NamePlace(journal, e.id), FileName(e.id);
    var names := FileNames(journal);
    forall i | at <= i < |journal| ensures !Before(names[i], name) && names[i] != name {
      assert journal[i] in journal;
      NamesAreDistinct(journal[i].id, e.id);
    }
    PlacedNames(names, name, at);
    InsertedNames(journal, at, e);
  }

  lemma InsertedNames(journal: seq<Entry>, at: nat, e: Entry)
    requires at <= |journal|
    ensures FileNames(Inserted(journal, at, e)) == FileNames(journal)[..at] + [FileName(e.id)] + FileNames(journal)[at..]
  {
  }

  lemma PlacedNames(names: seq<string>, name: string, at: nat)
    requires AscendingNames(names) && at <= |names| && (at > 0 ==> Before(names[at - 1], name))
    requires forall i :: at <= i < |names| ==> !Before(names[i], name) && names[i] != name
    ensures AscendingNames(names[..at] + [name] + names[at..])
  {
    forall i | at <= i < |names| ensures Before(name, names[i]) {
      BeforeIsTotal(names[i], name);
    }
    forall i | 0 <= i < at ensures Before(names[i], name) {
      if i < at - 1 { BeforeIsTransitive(names[i], names[at - 1], name); }
    }
    assert names[..at] + names[at..] == names;
    AscendingAround(names[..at], name, names[at..]);
  }

  lemma AscendingAround(a: seq<string>, x: string, b: seq<string>)
    requires AscendingNames(a + b)
    requires forall i :: 0 <= i < |a| ==> Before(a[i], x)
    requires forall i :: 0 <= i < |b| ==> Before(x, b[i])
    ensures AscendingNames(a + [x] + b)
  {
    var s, t := a + b, a + [x] + b;
    forall i, j | 0 <= i < j < |t| ensures Before(t[i], t[j]) {
      if i != |a| && j != |a| {
        assert t[i] == s[if i < |a| then i else i - 1] && t[j] == s[if j < |a| then j else j - 1];
      }
    }
  }
}
