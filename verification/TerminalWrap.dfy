/** Wrapping one styled terminal line into rows that carry the SGR state of ECMA-48, section 8.3.117. */
module TerminalWrap {
  import opened Common
  import opened Decimal
  import opened JsNumber

  /** One parameter of an escape that ends in `m`: a number (an empty parameter is 0), or text that
      is not a number, such as a colon form. */
  datatype Field = Num(n: nat) | Text

  /** A line as the scanner sees it: SGR escapes, other control sequences, graphemes, lone escape
      characters. */
  datatype Token =
    | Sgr(params: seq<Field>)
    | Control
    | Cell(glyph: string, width: nat)
    | Stray

  const RESET := Sgr([Num(0)])

  // ----- meaning: what a terminal shows

  /** A rendition command other than reset. */
  datatype Command = Attribute(f: Field) | Colour(slot: nat, arguments: seq<Field>)

  predicate TakesColour(f: Field) { f.Num? && f.n in {38, 48, 58} }

  /** How many parameters the first one occupies: colours take their arguments with them. */
  function Span(params: seq<Field>): (k: nat)
    requires params != []
    ensures 1 <= k <= |params|
  {
    if !TakesColour(params[0]) then 1
    else if |params| > 1 && params[1] == Num(2) then Min(5, |params|)
    else if |params| > 1 && params[1] == Num(5) then Min(3, |params|)
    else 1
  }

  predicate IsReset(f: Field) { f == Num(0) }

  /** What the first parameter, with its arguments, does to a rendition. */
  function ApplyFirst(style: seq<Command>, params: seq<Field>): seq<Command>
    requires params != []
  {
    if IsReset(params[0]) then []
    else if TakesColour(params[0]) then style + [Colour(params[0].n, params[1..Span(params)])]
    else style + [Attribute(params[0])]
  }

  /** The rendition in force, as the commands since the last reset: whatever a terminal shows is a
      function of these, and no two lists of them need look the same. */
  function Apply(style: seq<Command>, params: seq<Field>): seq<Command>
    decreases |params|
  {
    if params == [] then style else Apply(ApplyFirst(style, params), params[Span(params)..])
  }

  function StyleAfter(tokens: seq<Token>, style: seq<Command>): seq<Command> {
    if tokens == [] then style
    else
      var n := |tokens| - 1;
      var before := StyleAfter(tokens[..n], style);
      if tokens[n].Sgr? then Apply(before, tokens[n].params) else before
  }

  /** Everything shown, in order, each item with the rendition it is shown in. */
  function Render(tokens: seq<Token>, style: seq<Command>): seq<(Token, seq<Command>)> {
    if tokens == [] then []
    else
      var n := |tokens| - 1;
      Render(tokens[..n], style)
      + (if tokens[n].Sgr? then [] else [(tokens[n], StyleAfter(tokens[..n], style))])
  }

  // ----- the algorithm

  /** What stands behind the last reset parameter, if there is one; colour arguments are skipped. */
  function AfterReset(params: seq<Field>): (r: Option<seq<Field>>)
    ensures r.Some? ==> |r.value| < |params|
  {
    if params == [] then None
    else
      var rest := params[Span(params)..];
      if AfterReset(rest).Some? then AfterReset(rest) else if IsReset(params[0]) then Some(rest) else None
  }

  predicate Resets(params: seq<Field>) { AfterReset(params).Some? }

  /** What stands behind a position, -1 meaning none. */
  function Behind(params: seq<Field>, position: int): Option<seq<Field>>
    requires -1 <= position < |params|
  {
    if position < 0 then None else Some(params[position + 1..])
  }

  /** The search from `index` on, where there is something from there on. */
  function AfterResetFrom(params: seq<Field>, index: nat): Option<seq<Field>> {
    if index >= |params| then None else AfterReset(params[index..])
  }

  lemma AfterResetStep(params: seq<Field>, index: nat)
    requires index < |params|
    ensures var k := Span(params[index..]);
      && AfterResetFrom(params, index) == (
        if AfterResetFrom(params, index + k).Some? then AfterResetFrom(params, index + k)
        else if IsReset(params[index]) then Some(params[index + 1..]) else None)
      && (IsReset(params[index]) ==> k == 1)
  {
    var here := params[index..];
    assert here[Span(here)..] == params[index + Span(here)..];
  }

  /** The position found is the one behind which the suffix starts. */
  method SgrResetIndex(parameters: seq<Field>) returns (lastReset: int)
    ensures -1 <= lastReset < |parameters|
    ensures Behind(parameters, lastReset) == AfterReset(parameters)
  {
    lastReset := -1;
    var index := 0;
    assert parameters[0..] == parameters;
    while index < |parameters|
      invariant 0 <= index && -1 <= lastReset < |parameters|
      invariant AfterReset(parameters)
        == if AfterResetFrom(parameters, index).Some? then AfterResetFrom(parameters, index)
           else Behind(parameters, lastReset)
    {
      AfterResetStep(parameters, index);
      var parameter := parameters[index];
      if TakesColour(parameter) {
        if index + 1 < |parameters| && parameters[index + 1] == Num(2) { index := index + 4; }
        else if index + 1 < |parameters| && parameters[index + 1] == Num(5) { index := index + 2; }
      } else if parameter == Num(0) {
        lastReset := index;
      }
      index := index + 1;
    }
  }

  function FieldText(f: Field): (s: string)
    ensures s != ""
  {
    if f.Num? then NumberText(f.n) else "NaN"
  }

  function Joined(fields: seq<Field>): string {
    if fields == [] then ""
    else if |fields| == 1 then FieldText(fields[0])
    else FieldText(fields[0]) + ";" + Joined(fields[1..])
  }

  /** A byte that ends a control sequence: ECMA-48, section 5.4. */
  predicate IsFinal(c: char) { '@' <= c <= '~' }

  function AfterFinal(s: string): string {
    if s == "" then "" else if IsFinal(s[0]) then s[1..] else AfterFinal(s[1..])
  }

  function Glyphs(s: string): seq<Token> {
    seq(|s|, i requires 0 <= i < |s| => Cell([s[i]], 1))
  }

  predicate PrintsDigits(f: Field) { f.Num? && PrintsAsDigits(f.n) }

  predicate Unchanged(f: Field) { f.Num? && PrintsBack(f.n) }

  predicate AllDigitsPrinted(fields: seq<Field>) { forall i :: 0 <= i < |fields| ==> PrintsDigits(fields[i]) }

  predicate AllUnchanged(fields: seq<Field>) { forall i :: 0 <= i < |fields| ==> Unchanged(fields[i]) }

  function Reprinted(fields: seq<Field>): (r: seq<Field>)
    requires AllDigitsPrinted(fields)
    ensures |r| == |fields|
  {
    if fields == [] then [] else [Num(Printed(fields[0].n))] + Reprinted(fields[1..])
  }

  /** The escape rebuilt from numbers, as a terminal reads it. A parameter that is not a number prints as
      `NaN`, a large one as `1e+21` or `Infinity`: the first letter ends the control sequence, and the
      rest of the rebuilt text shows. */
  function Rebuilt(fields: seq<Field>): seq<Token>
    requires fields != []
  {
    if AllDigitsPrinted(fields) then [Sgr(Reprinted(fields))]
    else [Control] + Glyphs(AfterFinal(Joined(fields) + "m"))
  }

  function NextSgrState(current: seq<Token>, params: seq<Field>): seq<Token> {
    match AfterReset(params)
    case None => current + [Sgr(params)]
    case Some(remaining) => if |remaining| > 0 then Rebuilt(remaining) else []
  }

  datatype State = State(rows: seq<seq<Token>>, current: seq<Token>, active: seq<Token>, visible: nat)

  function Closed(current: seq<Token>, active: seq<Token>): seq<Token> {
    if active != [] then current + [RESET] else current
  }

  predicate Breaks(s: State, t: Token, width: nat) {
    t.Cell? && s.visible > 0 && s.visible + t.width > width
  }

  function Emitted(s: State): State {
    State(s.rows + [Closed(s.current, s.active)], s.active, s.active, 0)
  }

  function Scan(s: State, t: Token, width: nat): State {
    match t
    case Sgr(params) => s.(current := s.current + [t], active := NextSgrState(s.active, params))
    case Cell(_, w) =>
      var e := if Breaks(s, t, width) then Emitted(s) else s;
      e.(current := e.current + [t], visible := e.visible + w)
    case _ => s.(current := s.current + [t])
  }

  function ScanAll(line: seq<Token>, width: nat): State {
    if line == [] then State([], [], [], 0)
    else Scan(ScanAll(line[..|line| - 1], width), line[|line| - 1], width)
  }

  function Width(columns: int): nat { Max(1, columns) }

  function Wrapped(line: seq<Token>, columns: int): seq<seq<Token>> {
    var s := ScanAll(line, Width(columns));
    s.rows + [Closed(s.current, s.active)]
  }

  method NextSgrStateOf(current: seq<Token>, params: seq<Field>) returns (next: seq<Token>)
    ensures next == NextSgrState(current, params)
  {
    var lastReset := SgrResetIndex(params);
    if lastReset < 0 {
      next := current + [Sgr(params)];
      return;
    }
    var remaining := params[lastReset + 1..];
    if |remaining| == 0 {
      next := [];
      return;
    }
    next := Rebuilt(remaining);
    assert NextSgrState(current, params) == Rebuilt(remaining);
  }

  method WrapTerminalLine(line: seq<Token>, columns: int) returns (rows: seq<seq<Token>>)
    ensures rows == Wrapped(line, columns)
  {
    var width := Max(1, columns);
    var current, activeSgr, visibleColumns, index := [], [], 0, 0;
    rows := [];
    while index < |line|
      invariant 0 <= index <= |line| && visibleColumns >= 0
      invariant State(rows, current, activeSgr, visibleColumns) == ScanAll(line[..index], width)
    {
      assert line[..index + 1][..index] == line[..index];
      var token := line[index];
      match token {
        case Sgr(params) =>
          current := current + [token];
          activeSgr := NextSgrStateOf(activeSgr, params);
        case Cell(_, w) =>
          if visibleColumns > 0 && visibleColumns + w > width {
            rows := rows + [if activeSgr != [] then current + [RESET] else current];
            current := activeSgr;
            visibleColumns := 0;
          }
          current := current + [token];
          visibleColumns := visibleColumns + w;
        case _ =>
          current := current + [token];
      }
      index := index + 1;
    }
    assert line[..index] == line;
    rows := rows + [if activeSgr != [] then current + [RESET] else current];
  }

  // ----- SGR state

  /** Dropping everything up to the last reset keeps the state an escape leaves, whatever it was
      before. */
  lemma {:induction false} DroppingUpToResetKeepsState(style: seq<Command>, params: seq<Field>)
    requires Resets(params)
    ensures Apply(style, params) == Apply([], AfterReset(params).value)
    decreases |params|
  {
    var rest := params[Span(params)..];
    if Resets(rest) {
      DroppingUpToResetKeepsState(ApplyFirst(style, params), rest);
    }
  }

  lemma {:induction false} NothingResetsAfterTheLast(params: seq<Field>)
    requires Resets(params)
    ensures !Resets(AfterReset(params).value)
    decreases |params|
  {
    var rest := params[Span(params)..];
    if Resets(rest) {
      NothingResetsAfterTheLast(rest);
    }
  }

  /** The command the first parameter is, with its arguments. */
  function FirstCommand(params: seq<Field>): Command
    requires params != []
  {
    if TakesColour(params[0]) then Colour(params[0].n, params[1..Span(params)]) else Attribute(params[0])
  }

  lemma ApplyStep(style: seq<Command>, params: seq<Field>)
    requires params != [] && !Resets(params)
    ensures !IsReset(params[0]) && !Resets(params[Span(params)..])
    ensures Apply(style, params) == Apply(style + [FirstCommand(params)], params[Span(params)..])
  {
  }

  lemma Associates<T>(a: seq<T>, b: seq<T>, c: seq<T>)
    ensures (a + b) + c == a + (b + c)
  {
  }

  /** Without a reset an escape adds commands of its own to any rendition. */
  lemma {:induction false} WithoutResetsAppends(style: seq<Command>, params: seq<Field>)
    requires !Resets(params)
    ensures Apply(style, params) == style + Apply([], params)
    decreases |params|
  {
    if params == [] {
      assert style + [] == style;
    } else {
      var command, rest := FirstCommand(params), params[Span(params)..];
      ApplyStep(style, params);
      ApplyStep([], params);
      assert [] + [command] == [command];
      WithoutResetsAppends(style + [command], rest);
      WithoutResetsAppends([command], rest);
      Associates(style, [command], Apply([], rest));
    }
  }

  function ParametersOf(c: Command): seq<Field> {
    if c.Attribute? then [c.f] else [Num(c.slot)] + c.arguments
  }

  /** The parameters a rendition was given in. */
  function Given(style: seq<Command>): seq<Field> {
    if style == [] then [] else ParametersOf(style[0]) + Given(style[1..])
  }

  lemma FirstParameters(params: seq<Field>)
    requires params != []
    ensures ParametersOf(FirstCommand(params)) + params[Span(params)..] == params
  {
    if TakesColour(params[0]) { assert Num(params[0].n) == params[0]; }
  }

  lemma GivenFirst(command: Command, style: seq<Command>)
    ensures Given([command] + style) == ParametersOf(command) + Given(style)
  {
    assert ([command] + style)[1..] == style;
  }

  lemma {:induction false} ParametersGiven(params: seq<Field>)
    requires !Resets(params)
    ensures Given(Apply([], params)) == params
    decreases |params|
  {
    if params != [] {
      var command, rest := FirstCommand(params), params[Span(params)..];
      ApplyStep([], params);
      assert [] + [command] == [command];
      ParametersGiven(rest);
      WithoutResetsAppends([command], rest);
      GivenFirst(command, Apply([], rest));
      FirstParameters(params);
    }
  }

  lemma ReprintedHead(fields: seq<Field>)
    requires fields != [] && AllDigitsPrinted(fields)
    ensures fields[0].Num?
    ensures Reprinted(fields)[0] == Num(Printed(fields[0].n))
    ensures fields[0].n < EXACT_BELOW ==> Reprinted(fields)[0] == fields[0]
    ensures fields[0].n >= EXACT_BELOW ==> Reprinted(fields)[0].n >= EXACT_BELOW
    ensures AllDigitsPrinted(fields[1..]) && Reprinted(fields)[1..] == Reprinted(fields[1..])
  {
    PrintedBelowOrNot(fields[0].n);
  }

  lemma {:induction false} ReprintedDrop(fields: seq<Field>, k: nat)
    requires AllDigitsPrinted(fields) && k <= |fields|
    ensures AllDigitsPrinted(fields[k..]) && Reprinted(fields)[k..] == Reprinted(fields[k..])
    decreases k
  {
    if k > 0 {
      ReprintedHead(fields);
      ReprintedDrop(fields[1..], k - 1);
      assert fields[1..][k - 1..] == fields[k..];
      assert Reprinted(fields)[1..][k - 1..] == Reprinted(fields)[k..];
    } else {
      assert fields[0..] == fields && Reprinted(fields)[0..] == Reprinted(fields);
    }
  }

  lemma SpanLooksAtTwo(a: seq<Field>, b: seq<Field>)
    requires |a| == |b| && a != []
    requires forall k :: 0 <= k < |a| && k < 2 ==> SameKind(a[k], b[k])
    ensures Span(a) == Span(b) && (IsReset(a[0]) <==> IsReset(b[0]))
  {
  }

  /** Two numbers that are equal, or both too large to mean a reset or a colour. */
  predicate SameKind(f: Field, g: Field) {
    f.Num? && g.Num? && (f == g || (f.n >= EXACT_BELOW && g.n >= EXACT_BELOW))
  }

  lemma ReprintedSpan(fields: seq<Field>)
    requires AllDigitsPrinted(fields) && fields != []
    ensures Span(Reprinted(fields)) == Span(fields)
    ensures IsReset(Reprinted(fields)[0]) <==> IsReset(fields[0])
  {
    var r := Reprinted(fields);
    ReprintedHead(fields);
    assert SameKind(r[0], fields[0]);
    if |fields| > 1 {
      ReprintedHead(fields[1..]);
      assert r[1] == r[1..][0];
    }
    SpanLooksAtTwo(r, fields);
  }

  /** Rounding makes no reset and takes none away. */
  lemma {:induction false} ReprintedResets(fields: seq<Field>)
    requires AllDigitsPrinted(fields)
    ensures Resets(Reprinted(fields)) <==> Resets(fields)
    decreases |fields|
  {
    if fields != [] {
      var k := Span(fields);
      ReprintedSpan(fields);
      ReprintedDrop(fields, k);
      ReprintedResets(fields[k..]);
    }
  }

  lemma SameHeadAndTail<T>(a: seq<T>, b: seq<T>)
    requires a != [] && b != []
    ensures a == b <==> a[0] == b[0] && a[1..] == b[1..]
  {
    if a[0] == b[0] && a[1..] == b[1..] { assert a == [a[0]] + a[1..]; }
  }

  lemma {:induction false} ReprintedIsTheSame(fields: seq<Field>)
    requires AllDigitsPrinted(fields)
    ensures Reprinted(fields) == fields <==> AllUnchanged(fields)
  {
    if fields != [] {
      ReprintedHead(fields);
      ReprintedIsTheSame(fields[1..]);
      SameHeadAndTail(Reprinted(fields), fields);
      assert AllUnchanged(fields) <==> Unchanged(fields[0]) && AllUnchanged(fields[1..]);
    }
  }

  predicate Tainted(active: seq<Token>) { exists t :: t in active && !t.Sgr? }

  lemma StyleAppend(tokens: seq<Token>, t: Token, style: seq<Command>)
    ensures StyleAfter(tokens + [t], style) == if t.Sgr? then Apply(StyleAfter(tokens, style), t.params) else StyleAfter(tokens, style)
    ensures Render(tokens + [t], style) == Render(tokens, style) + (if t.Sgr? then [] else [(t, StyleAfter(tokens, style))])
  {
    assert (tokens + [t])[..|tokens|] == tokens;
  }

  lemma {:induction false} OnlySgrShowsNothing(tokens: seq<Token>, style: seq<Command>)
    requires !Tainted(tokens)
    ensures Render(tokens, style) == []
  {
    if tokens != [] {
      var n := |tokens| - 1;
      assert tokens[n] in tokens;
      assert !Tainted(tokens[..n]) by { assert forall t :: t in tokens[..n] ==> t in tokens; }
      OnlySgrShowsNothing(tokens[..n], style);
    }
  }

  /** The parameters behind the last reset of the line so far, the ones the source rebuilds. */
  function Leftover(line: seq<Token>): seq<Field> {
    if line == [] then []
    else
      var t := line[|line| - 1];
      if t.Sgr? && Resets(t.params) then AfterReset(t.params).value
      else Leftover(line[..|line| - 1])
  }

  /** The carried state replays to the rendition of the line so far while the rebuilt parameters print as
      themselves; otherwise it shows something, or replays to another rendition. */
  ghost predicate Carries(line: seq<Token>, active: seq<Token>) {
    && (Tainted(active) <==> !AllDigitsPrinted(Leftover(line)))
    && (Tainted(active) ==> active[0] == Control)
    && (!Tainted(active) ==> (StyleAfter(active, []) == StyleAfter(line, []) <==> AllUnchanged(Leftover(line))))
  }

  lemma RebuiltIs(fields: seq<Field>)
    requires fields != []
    ensures Tainted(Rebuilt(fields)) <==> !AllDigitsPrinted(fields)
    ensures Tainted(Rebuilt(fields)) ==> Rebuilt(fields)[0] == Control
    ensures AllDigitsPrinted(fields) ==> StyleAfter(Rebuilt(fields), []) == Apply([], Reprinted(fields))
  {
    if AllDigitsPrinted(fields) {
      StyleAppend([], Sgr(Reprinted(fields)), []);
      assert [] + [Sgr(Reprinted(fields))] == Rebuilt(fields);
    } else {
      assert Rebuilt(fields)[0] == Control;
      assert Control in Rebuilt(fields);
    }
  }

  lemma RebuiltStyle(fields: seq<Field>)
    requires AllDigitsPrinted(fields) && !Resets(fields)
    ensures Apply([], Reprinted(fields)) == Apply([], fields) <==> AllUnchanged(fields)
  {
    ReprintedResets(fields);
    ReprintedIsTheSame(fields);
    ParametersGiven(fields);
    ParametersGiven(Reprinted(fields));
  }

  lemma ResetCarries(line: seq<Token>, active: seq<Token>, params: seq<Field>)
    requires Resets(params)
    ensures Carries(line + [Sgr(params)], NextSgrState(active, params))
  {
    var remaining := AfterReset(params).value;
    StyleAppend(line, Sgr(params), []);
    DroppingUpToResetKeepsState(StyleAfter(line, []), params);
    NothingResetsAfterTheLast(params);
    assert Leftover(line + [Sgr(params)]) == remaining;
    if remaining != [] {
      RebuiltIs(remaining);
      if AllDigitsPrinted(remaining) { RebuiltStyle(remaining); }
    }
  }

  lemma TaintedAppend(active: seq<Token>, t: Token)
    ensures Tainted(active + [t]) <==> Tainted(active) || !t.Sgr?
  {
    assert forall u :: u in active + [t] <==> u in active || u == t;
  }

  lemma SameEnding<T>(a: seq<T>, b: seq<T>, c: seq<T>)
    ensures a + c == b + c <==> a == b
  {
    if a + c == b + c {
      assert |a| == |b|;
      assert a == (a + c)[..|a|] && b == (b + c)[..|b|];
    }
  }

  lemma AddedCarries(line: seq<Token>, active: seq<Token>, params: seq<Field>)
    requires Carries(line, active) && !Resets(params)
    ensures Carries(line + [Sgr(params)], NextSgrState(active, params))
  {
    var t := Sgr(params);
    TaintedAppend(active, t);
    assert (line + [t])[..|line|] == line;
    StyleAppend(line, t, []);
    StyleAppend(active, t, []);
    WithoutResetsAppends(StyleAfter(line, []), params);
    WithoutResetsAppends(StyleAfter(active, []), params);
    SameEnding(StyleAfter(active, []), StyleAfter(line, []), Apply([], params));
  }

  lemma CarriedFaithfully(line: seq<Token>, active: seq<Token>)
    requires Carries(line, active) && AllUnchanged(Leftover(line))
    ensures !Tainted(active) && StyleAfter(active, []) == StyleAfter(line, [])
  {
  }

  lemma CarriedAltered(line: seq<Token>, active: seq<Token>)
    requires Carries(line, active) && !AllUnchanged(Leftover(line))
    ensures if Tainted(active) then active[0] == Control else StyleAfter(active, []) != StyleAfter(line, [])
  {
  }

  lemma OtherCarries(line: seq<Token>, active: seq<Token>, t: Token)
    requires Carries(line, active) && !t.Sgr?
    ensures Carries(line + [t], active)
  {
    assert (line + [t])[..|line|] == line;
    StyleAppend(line, t, []);
  }

  lemma StepCarries(line: seq<Token>, t: Token, s: State, width: nat)
    requires Carries(line, s.active)
    ensures Carries(line + [t], Scan(s, t, width).active)
  {
    if !t.Sgr? {
      OtherCarries(line, s.active, t);
    } else if Resets(t.params) {
      ResetCarries(line, s.active, t.params);
    } else {
      AddedCarries(line, s.active, t.params);
    }
  }

  /** What the carried state is after any part of a line, at any width. */
  lemma {:induction false} CarriedStateIs(line: seq<Token>, width: nat)
    ensures Carries(line, ScanAll(line, width).active)
    decreases |line|
  {
    if line != [] {
      var p, t := line[..|line| - 1], line[|line| - 1];
      CarriedStateIs(p, width);
      StepCarries(p, t, ScanAll(p, width), width);
      assert line == p + [t];
    }
  }

  // ----- meaning is preserved

  function RenderRows(rows: seq<seq<Token>>): seq<(Token, seq<Command>)> {
    if rows == [] then [] else RenderRows(rows[..|rows| - 1]) + Render(rows[|rows| - 1], [])
  }

  /** Rows rendered one by one, each from the default rendition, show what the line shows. */
  predicate PreservesMeaning(line: seq<Token>, columns: int) {
    RenderRows(Wrapped(line, columns)) == Render(line, [])
  }

  /** A row breaks before `t` with rebuilt parameters that do not all print as themselves. */
  predicate AltersHere(line: seq<Token>, t: Token, width: nat) {
    Breaks(ScanAll(line, width), t, width) && !AllUnchanged(Leftover(line))
  }

  /** Some row of the line starts that way. */
  predicate AltersAtBreak(line: seq<Token>, width: nat) {
    && line != []
    && (AltersAtBreak(line[..|line| - 1], width) || AltersHere(line[..|line| - 1], line[|line| - 1], width))
  }

  /** `t` stands at position `i` and alters. */
  predicate AltersAt(line: seq<Token>, i: nat, width: nat) { i < |line| && AltersHere(line[..i], line[i], width) }

  lemma AltersAtEarlier(p: seq<Token>, t: Token, i: nat, width: nat)
    ensures AltersAt(p + [t], i, width) <==> (i == |p| && AltersHere(p, t, width)) || AltersAt(p, i, width)
  {
    var line := p + [t];
    if i < |p| {
      assert line[..i] == p[..i];
    } else if i == |p| {
      assert line[..i] == p;
    }
  }

  lemma {:induction false} AltersAtSomePosition(line: seq<Token>, width: nat)
    ensures AltersAtBreak(line, width) <==> exists i :: AltersAt(line, i, width)
    decreases |line|
  {
    if line != [] {
      var p, t := line[..|line| - 1], line[|line| - 1];
      AltersAtSomePosition(p, width);
      forall i ensures AltersAt(line, i, width) <==> (i == |p| && AltersHere(p, t, width)) || AltersAt(p, i, width) {
        AltersAtEarlier(p, t, i, width);
        assert line == p + [t];
      }
      assert AltersAt(line, |p|, width) <==> AltersHere(p, t, width);
    }
  }

  /** What a state's rows and current row show. */
  function Full(s: State): seq<(Token, seq<Command>)> { RenderRows(s.rows) + Render(s.current, []) }

  lemma RowsAppend(rows: seq<seq<Token>>, row: seq<Token>)
    ensures RenderRows(rows + [row]) == RenderRows(rows) + Render(row, [])
  {
    assert (rows + [row])[..|rows|] == rows;
  }

  lemma ClosedShowsTheSame(current: seq<Token>, active: seq<Token>)
    ensures Render(Closed(current, active), []) == Render(current, [])
    ensures active != [] ==> StyleAfter(Closed(current, active), []) == []
  {
    if active != [] {
      StyleAppend(current, RESET, []);
      assert Apply(StyleAfter(current, []), [Num(0)]) == [];
    }
  }

  function ShownAs(t: Token, style: seq<Command>): seq<(Token, seq<Command>)> {
    if t.Sgr? then [] else [(t, style)]
  }

  function StyleNext(t: Token, style: seq<Command>): seq<Command> {
    if t.Sgr? then Apply(style, t.params) else style
  }

  lemma FullOf(rows: seq<seq<Token>>, current: seq<Token>, t: Token, shown: seq<(Token, seq<Command>)>, style: seq<Command>)
    requires shown == Render(current, []) && style == StyleAfter(current, [])
    ensures RenderRows(rows) + Render(current + [t], []) == RenderRows(rows) + shown + ShownAs(t, style)
    ensures StyleAfter(current + [t], []) == StyleNext(t, style)
  {
    StyleAppend(current, t, []);
  }

  /** A break shows what was shown, then the carried state, then the token. */
  lemma BreakShows(s: State, t: Token, width: nat)
    requires Breaks(s, t, width)
    ensures Full(Scan(s, t, width)) == Full(s) + Render(s.active, []) + [(t, StyleAfter(s.active, []))]
    ensures StyleAfter(Scan(s, t, width).current, []) == StyleAfter(s.active, [])
  {
    var row := Closed(s.current, s.active);
    ClosedShowsTheSame(s.current, s.active);
    RowsAppend(s.rows, row);
    FullOf(s.rows + [row], s.active, t, Render(s.active, []), StyleAfter(s.active, []));
  }

  /** Any other step shows what was shown, then the token. */
  lemma PlainShows(s: State, t: Token, width: nat)
    requires !Breaks(s, t, width)
    ensures Full(Scan(s, t, width)) == Full(s) + ShownAs(t, StyleAfter(s.current, []))
    ensures StyleAfter(Scan(s, t, width).current, []) == StyleNext(t, StyleAfter(s.current, []))
  {
    FullOf(s.rows, s.current, t, Render(s.current, []), StyleAfter(s.current, []));
  }

  ghost predicate Faithful(line: seq<Token>, s: State) {
    Full(s) == Render(line, []) && StyleAfter(s.current, []) == StyleAfter(line, [])
  }

  lemma ScanStep(line: seq<Token>, t: Token, width: nat)
    ensures ScanAll(line + [t], width) == Scan(ScanAll(line, width), t, width)
  {
    assert (line + [t])[..|line|] == line;
  }

  lemma NextIsFaithful(line: seq<Token>, t: Token, width: nat)
    requires Faithful(line, ScanAll(line, width)) && !AltersHere(line, t, width)
    ensures Faithful(line + [t], ScanAll(line + [t], width))
  {
    ScanStep(line, t, width);
    if Breaks(ScanAll(line, width), t, width) {
      CarriedStateIs(line, width);
      CarriedFaithfully(line, ScanAll(line, width).active);
      BreakIsFaithful(line, t, ScanAll(line, width), width);
    } else {
      PlainIsFaithful(line, t, ScanAll(line, width), width);
    }
  }

  lemma {:induction false} ScanIsFaithful(line: seq<Token>, width: nat)
    requires !AltersAtBreak(line, width)
    ensures Faithful(line, ScanAll(line, width))
    decreases |line|
  {
    if line != [] {
      var p, t := line[..|line| - 1], line[|line| - 1];
      ScanIsFaithful(p, width);
      NextIsFaithful(p, t, width);
      assert line == p + [t];
    }
  }

  lemma BreakIsFaithful(line: seq<Token>, t: Token, s: State, width: nat)
    requires Faithful(line, s) && Breaks(s, t, width)
    requires !Tainted(s.active) && StyleAfter(s.active, []) == StyleAfter(line, [])
    ensures Faithful(line + [t], Scan(s, t, width))
  {
    StyleAppend(line, t, []);
    BreakShows(s, t, width);
    OnlySgrShowsNothing(s.active, []);
  }

  lemma PlainIsFaithful(line: seq<Token>, t: Token, s: State, width: nat)
    requires Faithful(line, s) && !Breaks(s, t, width)
    ensures Faithful(line + [t], Scan(s, t, width))
  {
    StyleAppend(line, t, []);
    PlainShows(s, t, width);
  }

  // ----- an altered state always shows

  ghost predicate Diverges<T>(a: seq<T>, b: seq<T>) {
    exists k :: 0 <= k < |a| && k < |b| && a[k] != b[k]
  }

  lemma DivergesForGood<T>(a: seq<T>, b: seq<T>, x: seq<T>, y: seq<T>)
    requires Diverges(a, b)
    ensures Diverges(a + x, b + y)
  {
    var k :| 0 <= k < |a| && k < |b| && a[k] != b[k];
    assert (a + x)[k] != (b + y)[k];
  }

  lemma StaysDiverged(line: seq<Token>, t: Token, s: State, width: nat)
    requires Diverges(Full(s), Render(line, []))
    ensures Diverges(Full(Scan(s, t, width)), Render(line + [t], []))
  {
    StyleAppend(line, t, []);
    var y := ShownAs(t, StyleAfter(line, []));
    if Breaks(s, t, width) {
      BreakShows(s, t, width);
      DivergesForGood(Full(s), Render(line, []), Render(s.active, []) + [(t, StyleAfter(s.active, []))], y);
      Associates(Full(s), Render(s.active, []), [(t, StyleAfter(s.active, []))]);
    } else {
      PlainShows(s, t, width);
      DivergesForGood(Full(s), Render(line, []), ShownAs(t, StyleAfter(s.current, [])), y);
    }
  }

  lemma {:induction false} ControlShowsFirst(active: seq<Token>)
    requires active != [] && active[0] == Control
    ensures Render(active, []) != [] && Render(active, [])[0] == (Control, [])
  {
    var n := |active| - 1;
    if n > 0 {
      ControlShowsFirst(active[..n]);
    } else {
      assert active[..0] == [];
    }
  }

  lemma AlteredBreakDiverges(line: seq<Token>, t: Token, s: State, width: nat)
    requires Faithful(line, s) && Breaks(s, t, width)
    requires if Tainted(s.active) then s.active[0] == Control else StyleAfter(s.active, []) != StyleAfter(line, [])
    ensures Diverges(Full(Scan(s, t, width)), Render(line + [t], []))
  {
    var shown := Render(line, []);
    StyleAppend(line, t, []);
    BreakShows(s, t, width);
    if Tainted(s.active) {
      ControlShowsFirst(s.active);
    } else {
      OnlySgrShowsNothing(s.active, []);
    }
    var full, meant := Full(Scan(s, t, width)), Render(line + [t], []);
    assert full[|shown|] != meant[|shown|];
  }

  lemma FirstAlteredBreak(p: seq<Token>, t: Token, width: nat)
    requires !AltersAtBreak(p, width) && AltersHere(p, t, width)
    ensures Diverges(Full(Scan(ScanAll(p, width), t, width)), Render(p + [t], []))
  {
    ScanIsFaithful(p, width);
    CarriedStateIs(p, width);
    CarriedAltered(p, ScanAll(p, width).active);
    AlteredBreakDiverges(p, t, ScanAll(p, width), width);
  }

  lemma {:induction false} ScanDiverges(line: seq<Token>, width: nat)
    requires AltersAtBreak(line, width)
    ensures Diverges(Full(ScanAll(line, width)), Render(line, []))
    decreases |line|
  {
    var n := |line| - 1;
    var p, t := line[..n], line[n];
    assert line == p + [t];
    ScanStep(p, t, width);
    if AltersAtBreak(p, width) {
      ScanDiverges(p, width);
      StaysDiverged(p, t, ScanAll(p, width), width);
    } else {
      FirstAlteredBreak(p, t, width);
    }
  }

  /** Wrapping preserves meaning, for every line and column count, exactly when at every break the
      parameters behind the last reset print as themselves. */
  lemma WrappingPreservesMeaning(line: seq<Token>, columns: int)
    ensures PreservesMeaning(line, columns) <==> !AltersAtBreak(line, Width(columns))
  {
    var width := Width(columns);
    var s := ScanAll(line, width);
    ClosedShowsTheSame(s.current, s.active);
    RowsAppend(s.rows, Closed(s.current, s.active));
    if AltersAtBreak(line, width) {
      ScanDiverges(line, width);
    } else {
      ScanIsFaithful(line, width);
    }
  }

  /** What follows the last reset of an escape is numbers below two to the 53. */
  predicate OrdinaryAfterReset(params: seq<Field>) {
    Resets(params) ==> forall f :: f in AfterReset(params).value ==> f.Num? && f.n < EXACT_BELOW
  }

  lemma {:induction false} OrdinaryLeftover(line: seq<Token>)
    requires forall t :: t in line && t.Sgr? ==> OrdinaryAfterReset(t.params)
    ensures AllUnchanged(Leftover(line))
  {
    if line != [] {
      var t := line[|line| - 1];
      assert t in line;
      assert forall u :: u in line[..|line| - 1] ==> u in line;
      if t.Sgr? && Resets(t.params) {
        var rest := Leftover(line);
        forall i | 0 <= i < |rest| ensures Unchanged(rest[i]) {
          assert rest[i] in rest;
          SmallPrintsBack(rest[i].n);
        }
      } else {
        OrdinaryLeftover(line[..|line| - 1]);
      }
    }
  }

  lemma {:induction false} OrdinaryNeverAlters(line: seq<Token>, width: nat)
    requires forall t :: t in line && t.Sgr? ==> OrdinaryAfterReset(t.params)
    ensures !AltersAtBreak(line, width)
    decreases |line|
  {
    if line != [] {
      var p := line[..|line| - 1];
      assert forall u :: u in p ==> u in line;
      OrdinaryLeftover(p);
      OrdinaryNeverAlters(p, width);
    }
  }

  /** A line whose escapes have only numbers below two to the 53 behind their last reset. */
  lemma OrdinaryNumbersPreserveMeaning(line: seq<Token>, columns: int)
    requires forall t :: t in line && t.Sgr? ==> OrdinaryAfterReset(t.params)
    ensures PreservesMeaning(line, columns)
  {
    OrdinaryNeverAlters(line, Width(columns));
    WrappingPreservesMeaning(line, columns);
  }

  lemma LeftoverStep(line: seq<Token>, t: Token)
    ensures Leftover(line + [t])
      == if t.Sgr? && Resets(t.params) then AfterReset(t.params).value else Leftover(line)
  {
    assert (line + [t])[..|line|] == line;
  }

  lemma AltersStep(line: seq<Token>, t: Token, width: nat)
    ensures AltersAtBreak(line + [t], width) <==> AltersAtBreak(line, width) || AltersHere(line, t, width)
  {
    assert (line + [t])[..|line|] == line;
  }

  lemma ResetThenOne(f: Field)
    requires !IsReset(f)
    ensures AfterReset([Num(0), f]) == Some([f])
  {
    assert [f][1..] == [] && [Num(0), f][1..] == [f];
    assert !Resets([f]);
  }

  lemma EscapeAlone(e: Token)
    requires e.Sgr?
    ensures ScanAll([e], 1).visible == 0 && !AltersAtBreak([e], 1)
  {
    ScanStep([], e, 1);
    AltersStep([], e, 1);
    assert [] + [e] == [e];
  }

  /** The state after one escape and one cell. */
  lemma OneCell(e: Token, x: Token)
    requires e.Sgr? && x.Cell? && x.width == 1
    ensures ScanAll([e] + [x], 1).visible == 1 && !AltersAtBreak([e] + [x], 1)
  {
    EscapeAlone(e);
    ScanStep([e], x, 1);
    AltersStep([e], x, 1);
  }

  /** One parameter behind a reset, and two cells in one column. */
  lemma TwoCells(f: Field)
    requires !IsReset(f)
    ensures PreservesMeaning([Sgr([Num(0), f]), Cell("x", 1), Cell("y", 1)], 1) <==> Unchanged(f)
  {
    var e, x, y := Sgr([Num(0), f]), Cell("x", 1), Cell("y", 1);
    ResetThenOne(f);
    OneCell(e, x);
    LeftoverStep([], e);
    LeftoverStep([e], x);
    AltersStep([e] + [x], y, 1);
    assert [] + [e] == [e];
    assert AllUnchanged([f]) <==> Unchanged(f) by { assert [f][0] == f; }
    WrappingPreservesMeaning([e] + [x] + [y], 1);
    assert [e] + [x] + [y] == [e, x, y];
  }

  /** A colon colour behind a reset in the same escape, on a line that wraps, shows stray text. */
  lemma ColonColourSpills()
    ensures !PreservesMeaning([Sgr([Num(0), Text]), Cell("x", 1), Cell("y", 1)], 1)
  {
    TwoCells(Text);
  }

  lemma RebuiltSpill(f: Field)
    requires !PrintsDigits(f)
    ensures Rebuilt([f]) == [Control] + Glyphs(AfterFinal(FieldText(f) + "m"))
  {
    assert [f][0] == f;
    assert Joined([f]) == FieldText(f);
  }

  lemma AfterExponent()
    ensures AfterFinal("1e+21m") == "+21m"
  {
    assert "1e+21m"[1..] == "e+21m" && "e+21m"[1..] == "+21m";
  }

  lemma ExponentRebuilt(f: Field)
    requires !PrintsDigits(f) && FieldText(f) == "1e+21"
    ensures Rebuilt([f]) == [Control] + Glyphs("+21m")
  {
    RebuiltSpill(f);
    AfterExponent();
    assert FieldText(f) + "m" == "1e+21m";
  }

  /** So does ten to the 21, which prints as `1e+21`. */
  lemma ExponentSpills()
    ensures var f := Num(1000000000000000000000);
      && Rebuilt([f]) == [Control] + Glyphs("+21m")
      && !PreservesMeaning([Sgr([Num(0), f]), Cell("x", 1), Cell("y", 1)], 1)
  {
    var f := Num(1000000000000000000000);
    ExponentForm(f.n);
    ExponentRebuilt(f);
    TwoCells(f);
  }
}
