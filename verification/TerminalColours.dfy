/** How SGR parameters are read: written out for the forms of ECMA-48, section 8.3.117, and the colour forms of
    ISO 8613-6, and what that means for a line that wraps. */
module TerminalColours {
  import opened Common
  import opened JsNumber
  import opened TerminalWrap

  /** One command as a program writes it. */
  datatype Code =
    | Reset
    | Plain(n: nat)
    | Rgb(slot: nat, red: Field, green: Field, blue: Field)
    | Indexed(slot: nat, index: Field)

  /** Foreground, background and underline colours. */
  predicate Slot(n: nat) { n == 38 || n == 48 || n == 58 }

  predicate Proper(c: Code) {
    match c
    case Reset => true
    case Plain(n) => n != 0 && !Slot(n)
    case Rgb(slot, _, _, _) => Slot(slot)
    case Indexed(slot, _) => Slot(slot)
  }

  predicate AllProper(codes: seq<Code>) { forall k :: 0 <= k < |codes| ==> Proper(codes[k]) }

  function Fields(c: Code): (r: seq<Field>)
    ensures r != []
  {
    match c
    case Reset => [Num(0)]
    case Plain(n) => [Num(n)]
    case Rgb(slot, red, green, blue) => [Num(slot), Num(2), red, green, blue]
    case Indexed(slot, index) => [Num(slot), Num(5), index]
  }

  function AllFields(codes: seq<Code>): seq<Field> {
    if codes == [] then [] else Fields(codes[0]) + AllFields(codes[1..])
  }

  /** What one command does to a rendition. */
  function Perform(style: seq<Command>, c: Code): seq<Command> {
    match c
    case Reset => []
    case Plain(n) => style + [Attribute(Num(n))]
    case Rgb(slot, red, green, blue) => style + [Colour(slot, [Num(2), red, green, blue])]
    case Indexed(slot, index) => style + [Colour(slot, [Num(5), index])]
  }

  function PerformAll(style: seq<Command>, codes: seq<Code>): seq<Command>
    decreases |codes|
  {
    if codes == [] then style else PerformAll(Perform(style, codes[0]), codes[1..])
  }

  // ----- one command

  lemma FiveApart(a: Field, b: Field, c: Field, d: Field, e: Field, rest: seq<Field>)
    ensures var s := [a, b, c, d, e] + rest;
      s[0] == a && |s| >= 5 && s[1] == b && s[1..5] == [b, c, d, e] && s[5..] == rest
  {
  }

  lemma ThreeApart(a: Field, b: Field, c: Field, rest: seq<Field>)
    ensures var s := [a, b, c] + rest;
      s[0] == a && |s| >= 3 && s[1] == b && s[1..3] == [b, c] && s[3..] == rest
  {
  }

  lemma OneApart(a: Field, rest: seq<Field>)
    ensures ([a] + rest)[0] == a && ([a] + rest)[1..] == rest && ([a] + rest)[1..1] == []
  {
  }

  /** Direct colour takes exactly four more parameters, whatever they are. */
  lemma DirectColour(style: seq<Command>, c: nat, r: Field, g: Field, b: Field, rest: seq<Field>)
    requires c in {38, 48, 58}
    ensures Apply(style, [Num(c), Num(2), r, g, b] + rest) == Apply(style + [Colour(c, [Num(2), r, g, b])], rest)
    ensures AfterReset([Num(c), Num(2), r, g, b] + rest) == AfterReset(rest)
  {
    FiveApart(Num(c), Num(2), r, g, b, rest);
  }

  /** Indexed colour takes exactly two more. */
  lemma IndexedColour(style: seq<Command>, c: nat, n: Field, rest: seq<Field>)
    requires c in {38, 48, 58}
    ensures Apply(style, [Num(c), Num(5), n] + rest) == Apply(style + [Colour(c, [Num(5), n])], rest)
    ensures AfterReset([Num(c), Num(5), n] + rest) == AfterReset(rest)
  {
    ThreeApart(Num(c), Num(5), n, rest);
  }

  /** A colour with another mode, or none, takes nothing: what follows is read on its own. */
  lemma ModelessColour(style: seq<Command>, c: nat, rest: seq<Field>)
    requires c in {38, 48, 58} && (rest != [] ==> rest[0] != Num(2) && rest[0] != Num(5))
    ensures Apply(style, [Num(c)] + rest) == Apply(style + [Colour(c, [])], rest)
    ensures AfterReset([Num(c)] + rest) == AfterReset(rest)
  {
    OneApart(Num(c), rest);
  }

  /** Any other parameter is read on its own; zero is the reset. */
  lemma OtherParameter(style: seq<Command>, f: Field, rest: seq<Field>)
    requires f != Num(38) && f != Num(48) && f != Num(58)
    ensures Apply(style, [f] + rest) == Apply(if f == Num(0) then [] else style + [Attribute(f)], rest)
    ensures AfterReset([f] + rest)
      == (if AfterReset(rest).Some? then AfterReset(rest) else if f == Num(0) then Some(rest) else None)
  {
    OneApart(f, rest);
  }

  lemma NothingRead(style: seq<Command>)
    ensures Apply(style, []) == style && AfterReset([]) == None
  {
  }

  /** A colour that breaks off early takes what there is. */
  lemma BrokenOffColour(style: seq<Command>, c: nat, mode: nat, arguments: seq<Field>)
    requires c in {38, 48, 58} && ((mode == 2 && |arguments| < 3) || (mode == 5 && |arguments| < 1))
    ensures Apply(style, [Num(c), Num(mode)] + arguments) == style + [Colour(c, [Num(mode)] + arguments)]
    ensures AfterReset([Num(c), Num(mode)] + arguments) == None
  {
    var s := [Num(c), Num(mode)] + arguments;
    assert s[1..] == [Num(mode)] + arguments && s[|s|..] == [];
    assert s[1] == Num(mode) && s[1..|s|] == [Num(mode)] + arguments;
  }

  // ----- any sequence of commands

  lemma FirstCode(style: seq<Command>, c: Code, rest: seq<Field>)
    requires Proper(c)
    ensures Apply(style, Fields(c) + rest) == Apply(Perform(style, c), rest)
    ensures AfterReset(Fields(c) + rest)
      == (if AfterReset(rest).Some? then AfterReset(rest) else if c.Reset? then Some(rest) else None)
  {
    match c
    case Reset => OtherParameter(style, Num(0), rest);
    case Plain(n) => OtherParameter(style, Num(n), rest);
    case Rgb(slot, r, g, b) => DirectColour(style, slot, r, g, b, rest);
    case Indexed(slot, n) => IndexedColour(style, slot, n, rest);
  }

  /** The rendition an escape gives is that of its commands, one by one. */
  lemma {:induction false} CodesPerformed(style: seq<Command>, codes: seq<Code>)
    requires AllProper(codes)
    ensures Apply(style, AllFields(codes)) == PerformAll(style, codes)
    decreases |codes|
  {
    if codes != [] {
      FirstCode(style, codes[0], AllFields(codes[1..]));
      CodesPerformed(Perform(style, codes[0]), codes[1..]);
    }
  }

  /** The commands behind the last reset. */
  function Kept(codes: seq<Code>): Option<seq<Code>> {
    if codes == [] then None
    else if Kept(codes[1..]).Some? then Kept(codes[1..])
    else if codes[0].Reset? then Some(codes[1..])
    else None
  }

  lemma {:induction false} KeptIs(codes: seq<Code>, k: nat)
    requires k <= |codes| && forall j :: k <= j < |codes| ==> !codes[j].Reset?
    ensures k > 0 && codes[k - 1].Reset? ==> Kept(codes) == Some(codes[k..])
    ensures k == 0 ==> Kept(codes) == None
    decreases |codes|
  {
    if codes != [] {
      if k == 0 {
        KeptIs(codes[1..], 0);
      } else {
        KeptIs(codes[1..], k - 1);
        assert codes[1..][k - 1..] == codes[k..];
      }
    }
  }

  lemma {:induction false} FieldsKept(codes: seq<Code>)
    requires AllProper(codes)
    ensures AfterReset(AllFields(codes))
      == (if Kept(codes).Some? then Some(AllFields(Kept(codes).value)) else None)
    decreases |codes|
  {
    if codes != [] {
      FieldsKept(codes[1..]);
      FirstCode([], codes[0], AllFields(codes[1..]));
    }
  }

  /** The search finds the parameters of exactly the commands behind the last reset. */
  lemma SearchFindsTheLastReset(codes: seq<Code>, k: nat)
    requires AllProper(codes) && k <= |codes| && forall j :: k <= j < |codes| ==> !codes[j].Reset?
    ensures k > 0 && codes[k - 1].Reset? ==> AfterReset(AllFields(codes)) == Some(AllFields(codes[k..]))
    ensures k == 0 ==> AfterReset(AllFields(codes)) == None
  {
    FieldsKept(codes);
    KeptIs(codes, k);
  }

  // ----- the text of a rebuilt escape

  lemma Regrouped(a: string, b: string, c: string)
    ensures a + (b + c) == (a + b) + c
  {
  }

  /** Parameters are written with semicolons between them; anything that is no number as `NaN`. */
  lemma {:induction false} JoinedIs(a: seq<Field>, b: seq<Field>, f: Field)
    requires a != [] && b != []
    ensures Joined(a + b) == Joined(a) + (";" + Joined(b))
    ensures Joined([f]) == (if f.Num? then NumberText(f.n) else "NaN")
    decreases |a|
  {
    if |a| == 1 {
      assert (a + b)[0] == a[0] && (a + b)[1..] == b;
      assert FieldText(a[0]) + ";" + Joined(b) == FieldText(a[0]) + (";" + Joined(b));
    } else {
      assert (a + b)[0] == a[0] && (a + b)[1..] == a[1..] + b;
      JoinedIs(a[1..], b, f);
      Regrouped(FieldText(a[0]) + ";", Joined(a[1..]), ";" + Joined(b));
    }
  }

  /** A control sequence runs through the first byte from 40 to 7E in hexadecimal; what follows is shown. */
  lemma {:induction false} SequenceEnds(inside: string, final: char, shown: string)
    requires forall k :: 0 <= k < |inside| ==> !(0x40 <= inside[k] as int <= 0x7e)
    requires 0x40 <= final as int <= 0x7e
    ensures AfterFinal(inside + [final] + shown) == shown
    decreases |inside|
  {
    var s := inside + [final] + shown;
    if inside == "" {
      assert s == [final] + shown;
    } else {
      assert s[1..] == inside[1..] + [final] + shown;
      SequenceEnds(inside[1..], final, shown);
    }
  }

  // ----- a line that wraps

  /** An escape, and two cells too wide for one row. */
  lemma {:induction false} EscapeThenBreak(params: seq<Field>, x: Token, y: Token, columns: int)
    requires x.Cell? && y.Cell? && x.width > 0 && x.width + y.width > Max(1, columns)
    ensures var carried := NextSgrState([], params);
      Wrapped([Sgr(params), x, y], columns)
        == [if carried != [] then [Sgr(params), x, RESET] else [Sgr(params), x],
            if carried != [] then carried + [y] + [RESET] else [y]]
  {
    var e, width := Sgr(params), Width(columns);
    ScanStep([], e, width);
    ScanStep([e], x, width);
    ScanStep([e, x], y, width);
    assert [] + [e] == [e] && [e] + [x] == [e, x] && [e, x] + [y] == [e, x, y];
    assert [e, x] + [RESET] == [e, x, RESET];
    assert [] + [y] == [y];
  }

  /** An escape without a reset carries its parameters, whatever they are, to the next row. */
  lemma ColourIsCarried(codes: seq<Code>, x: Token, y: Token, columns: int)
    requires AllProper(codes) && forall k :: 0 <= k < |codes| ==> !codes[k].Reset?
    requires x.Cell? && y.Cell? && x.width > 0 && x.width + y.width > Max(1, columns)
    ensures var e := Sgr(AllFields(codes));
      Wrapped([e, x, y], columns) == [[e, x, RESET], [e, y, RESET]]
  {
    SearchFindsTheLastReset(codes, 0);
    WholeCarried(AllFields(codes), x, y, columns);
  }

  lemma WholeCarried(params: seq<Field>, x: Token, y: Token, columns: int)
    requires AfterReset(params) == None
    requires x.Cell? && y.Cell? && x.width > 0 && x.width + y.width > Max(1, columns)
    ensures var e := Sgr(params);
      Wrapped([e, x, y], columns) == [[e, x, RESET], [e, y, RESET]]
  {
    var e := Sgr(params);
    EscapeThenBreak(params, x, y, columns);
    assert [] + [e] == [e] && [e] + [y] + [RESET] == [e, y, RESET];
  }

  /** Pure red, whose green and blue are zero, is still red on the second row. */
  lemma RedStaysRed(columns: int, x: Token, y: Token)
    requires x.Cell? && y.Cell? && x.width > 0 && x.width + y.width > Max(1, columns)
    ensures var red := Sgr([Num(38), Num(2), Num(255), Num(0), Num(0)]);
      && Wrapped([red, x, y], columns) == [[red, x, RESET], [red, y, RESET]]
      && StyleAfter([red], []) == [Colour(38, [Num(2), Num(255), Num(0), Num(0)])]
  {
    var code := Rgb(38, Num(255), Num(0), Num(0));
    var fields := [Num(38), Num(2), Num(255), Num(0), Num(0)];
    assert [code][1..] == [];
    assert AllFields([code]) == fields + [] == fields;
    ColourIsCarried([code], x, y, columns);
    DirectColour([], 38, Num(255), Num(0), Num(0), []);
    assert fields + [] == fields && [] + [Colour(38, [Num(2), Num(255), Num(0), Num(0)])] == [Colour(38, [Num(2), Num(255), Num(0), Num(0)])];
    StyleAppend([], Sgr(fields), []);
    assert [] + [Sgr(fields)] == [Sgr(fields)];
  }

  /** The parameters behind a reset in the same escape, ordinary numbers, are what the next row starts with;
      with nothing behind it the next row starts plain. */
  lemma LeftoverIsCarried(codes: seq<Code>, k: nat, x: Token, y: Token, columns: int)
    requires AllProper(codes) && 0 < k <= |codes| && codes[k - 1].Reset?
    requires forall j :: k <= j < |codes| ==> !codes[j].Reset?
    requires forall f :: f in AllFields(codes[k..]) ==> f.Num? && f.n < EXACT_BELOW
    requires x.Cell? && y.Cell? && x.width > 0 && x.width + y.width > Max(1, columns)
    ensures var e, left := Sgr(AllFields(codes)), AllFields(codes[k..]);
      Wrapped([e, x, y], columns)
        == (if left == [] then [[e, x], [y]] else [[e, x, RESET], [Sgr(left), y, RESET]])
  {
    SearchFindsTheLastReset(codes, k);
    LeftoverRows(AllFields(codes), AllFields(codes[k..]), x, y, columns);
  }

  lemma LeftoverRows(params: seq<Field>, left: seq<Field>, x: Token, y: Token, columns: int)
    requires AfterReset(params) == Some(left) && forall f :: f in left ==> f.Num? && f.n < EXACT_BELOW
    requires x.Cell? && y.Cell? && x.width > 0 && x.width + y.width > Max(1, columns)
    ensures var e := Sgr(params);
      Wrapped([e, x, y], columns)
        == (if left == [] then [[e, x], [y]] else [[e, x, RESET], [Sgr(left), y, RESET]])
  {
    EscapeThenBreak(params, x, y, columns);
    if left != [] {
      OrdinaryRebuilt(left);
      assert [Sgr(left)] + [y] + [RESET] == [Sgr(left), y, RESET];
    }
  }

  lemma OrdinaryRebuilt(fields: seq<Field>)
    requires fields != [] && forall f :: f in fields ==> f.Num? && f.n < EXACT_BELOW
    ensures Rebuilt(fields) == [Sgr(fields)]
  {
    forall i | 0 <= i < |fields| ensures Unchanged(fields[i]) {
      assert fields[i] in fields;
      SmallPrintsBack(fields[i].n);
    }
    ReprintedIsTheSame(fields);
  }
}
