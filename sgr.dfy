/** Screen cells and the SGR (Select Graphic Rendition, ECMA-48 section 8.3.117)
    parameters the screen dumpers emit to reproduce their style. */
module Sgr {
  import opened Results
  import Text

  /** A screen cell as the terminal emulator stores it. */
  datatype Cell = Cell(data: string, fg: string, bg: string,
                       bold: bool, italics: bool, underscore: bool,
                       strikethrough: bool, reverse: bool, blink: bool)

  /** The emulator's default cell: a space in default colours, no attributes. */
  const BlankCell: Cell := Cell(" ", "default", "default", false, false, false, false, false, false)

  /** The dumper's `current_state` dictionary: what it believes the receiving
      terminal's graphic rendition to be. */
  datatype Style = Style(bold: bool, italics: bool, underscore: bool, blink: bool,
                         reverse: bool, strikethrough: bool, fg: string, bg: string)

  const Plain: Style := Style(false, false, false, false, false, false, "default", "default")

  /** A colour table (`FG_ANSI`, `BG_ANSI`) as its items in iteration order:
      (SGR parameter, colour name). */
  type ColourTable = seq<(int, string)>

  function Colours(t: ColourTable): set<string>
  {
    set e | e in t :: e.1
  }

  function Codes(t: ColourTable): set<int>
  {
    set e | e in t :: e.0
  }

  /** The first table entry with the given colour, as the dumper's search finds it. */
  function CodeFor(t: ColourTable, colour: string): (r: Option<int>)
    ensures r.Some? <==> colour in Colours(t)
    ensures r.Some? ==> (r.value, colour) in t
  {
    if t == [] then None
    else if t[0].1 == colour then Some(t[0].0)
    else CodeFor(t[1..], colour)
  }

  /** The colour a table gives an SGR parameter, as a terminal reads it. */
  function ColourOf(t: ColourTable, code: int): (r: Option<string>)
    ensures r.Some? <==> code in Codes(t)
    ensures r.Some? ==> (code, r.value) in t
  {
    if t == [] then None
    else if t[0].0 == code then Some(t[0].1)
    else ColourOf(t[1..], code)
  }

  /** A table maps each parameter to one colour. */
  predicate UniqueCodes(t: ColourTable)
  {
    forall i, j | 0 <= i < j < |t| :: t[i].0 != t[j].0
  }

  /** The tables are dictionaries whose parameters are distinct from each other
      and from the attribute parameters 0, 1, 3, 4, 5, 7 and 9. */
  predicate TablesOk(fgT: ColourTable, bgT: ColourTable)
  {
    && UniqueCodes(fgT) && UniqueCodes(bgT)
    && (forall k | k in Codes(fgT) :: k !in {0, 1, 3, 4, 5, 7, 9} && k !in Codes(bgT))
    && (forall k | k in Codes(bgT) :: k !in {0, 1, 3, 4, 5, 7, 9})
  }

  lemma UniqueCodesColour(t: ColourTable, code: int, colour: string)
    requires UniqueCodes(t) && (code, colour) in t
    ensures ColourOf(t, code) == Some(colour)
  {
    if t[0] != (code, colour) {
      assert (code, colour) in t[1..];
      assert UniqueCodes(t[1..]) by {
        assert forall i | 0 <= i < |t[1..]| :: t[1..][i] == t[i + 1];
      }
      UniqueCodesColour(t[1..], code, colour);
    }
  }

  /** `get_attribute_changes`' test: a tracked attribute the cell lacks, or a
      colour that differs, can only be undone by a full reset. */
  predicate NeedsReset(c: Cell, st: Style)
  {
    || (st.bold && !c.bold) || (st.italics && !c.italics) || (st.underscore && !c.underscore)
    || (st.blink && !c.blink) || (st.reverse && !c.reverse) || (st.strikethrough && !c.strikethrough)
    || st.fg != c.fg || st.bg != c.bg
  }

  /** The reset step: parameter 0 and an all-off state when needed. */
  function ResetStep(c: Cell, st: Style): (seq<int>, Style)
  {
    if NeedsReset(c, st) then ([0], Plain) else ([], st)
  }

  function Opt(b: bool, p: int): seq<int>
  {
    if b then [p] else []
  }

  /** Whether an attribute's parameter is emitted: the cell has it and it is not
      tracked, or a reset has just happened. */
  predicate Emits(has: bool, tracked: bool, reset: bool)
  {
    has && (reset || !tracked)
  }

  /** The attribute parameters after the reset step, in the order bold 1,
      italics 3, underscore 4, blink 5, reverse 7, strikethrough 9. */
  function FlagCodes(c: Cell, reset: bool, s: Style): seq<int>
  {
    LowCodes(c, reset, s) + HighCodes(c, reset, s)
  }

  function LowCodes(c: Cell, reset: bool, s: Style): seq<int>
  {
    Opt(Emits(c.bold, s.bold, reset), 1) + Opt(Emits(c.italics, s.italics, reset), 3)
    + Opt(Emits(c.underscore, s.underscore, reset), 4)
  }

  function HighCodes(c: Cell, reset: bool, s: Style): seq<int>
  {
    Opt(Emits(c.blink, s.blink, reset), 5) + Opt(Emits(c.reverse, s.reverse, reset), 7)
    + Opt(Emits(c.strikethrough, s.strikethrough, reset), 9)
  }

  /** The tracked attributes after the attribute steps. */
  function FlagState(c: Cell, s: Style): Style
  {
    s.(bold := s.bold || c.bold, italics := s.italics || c.italics, underscore := s.underscore || c.underscore,
       blink := s.blink || c.blink, reverse := s.reverse || c.reverse,
       strikethrough := s.strikethrough || c.strikethrough)
  }

  /** A colour step: a changed colour that the table names is appended and tracked. */
  function ColourStep(t: ColourTable, wanted: string, tracked: string): (seq<int>, string)
  {
    if wanted != tracked && CodeFor(t, wanted).Some? then ([CodeFor(t, wanted).value], wanted)
    else ([], tracked)
  }

  /** The SGR parameters `get_attribute_changes` emits before drawing cell `c` (each
      written with `str` when the sequence is rendered), and the tracked state afterwards. */
  function AttributeChanges(fgT: ColourTable, bgT: ColourTable, c: Cell, st: Style): (seq<int>, Style)
  {
    var reset := NeedsReset(c, st);
    var (k0, s0) := ResetStep(c, st);
    var s6 := FlagState(c, s0);
    var (kf, fg) := ColourStep(fgT, c.fg, s6.fg);
    var (kb, bg) := ColourStep(bgT, c.bg, s6.bg);
    (k0 + FlagCodes(c, reset, s0) + kf + kb, s6.(fg := fg, bg := bg))
  }

  /** The tracked state after a cell: the cell's attributes, and the cell's colours
      unless a reset had to drop a colour the table cannot name. */
  lemma AttributeChangesTracks(fgT: ColourTable, bgT: ColourTable, c: Cell, st: Style)
    ensures var r := AttributeChanges(fgT, bgT, c, st).1;
      && r.bold == c.bold && r.italics == c.italics && r.underscore == c.underscore
      && r.blink == c.blink && r.reverse == c.reverse && r.strikethrough == c.strikethrough
      && r.fg == (if c.fg in Colours(fgT) || !NeedsReset(c, st) then c.fg else "default")
      && r.bg == (if c.bg in Colours(bgT) || !NeedsReset(c, st) then c.bg else "default")
  {
  }

  /** Parameter 0 is emitted, and emitted first, exactly when a reset is needed. */
  lemma ResetComesFirst(fgT: ColourTable, bgT: ColourTable, c: Cell, st: Style)
    requires TablesOk(fgT, bgT)
    ensures var r := AttributeChanges(fgT, bgT, c, st).0;
      NeedsReset(c, st) <==> (r != [] && r[0] == 0)
  {
    var reset := NeedsReset(c, st);
    var r := AttributeChanges(fgT, bgT, c, st).0;
    if reset {
      assert r == [0] + (r[1..]);
    } else {
      var f := FlagCodes(c, false, st);
      assert 0 !in f;
      assert ColourStep(fgT, c.fg, FlagState(c, st).fg).0 == [];
      assert ColourStep(bgT, c.bg, FlagState(c, st).bg).0 == [];
      assert r == [] + f + [] + [];
      assert r == f;
      if r != [] {
        assert r[0] in f;
      }
    }
  }

  /** A cell's colours can be written with the tables (or are the defaults). */
  predicate Representable(fgT: ColourTable, bgT: ColourTable, c: Cell)
  {
    (c.fg in Colours(fgT) || c.fg == "default") && (c.bg in Colours(bgT) || c.bg == "default")
  }

  /** Drawing a representable cell twice in a row emits nothing the second time. */
  lemma SecondCallEmitsNothing(fgT: ColourTable, bgT: ColourTable, c: Cell, st: Style)
    requires Representable(fgT, bgT, c)
    ensures var st' := AttributeChanges(fgT, bgT, c, st).1;
      AttributeChanges(fgT, bgT, c, st') == ([], st')
  {
    AttributeChangesTracks(fgT, bgT, c, st);
    var s := AttributeChanges(fgT, bgT, c, st).1;
    assert s.fg == c.fg && s.bg == c.bg;
    assert !NeedsReset(c, s);
    assert ResetStep(c, s) == ([], s);
    assert FlagState(c, s) == s;
    assert LowCodes(c, false, s) == [] && HighCodes(c, false, s) == [];
    assert ColourStep(fgT, c.fg, s.fg) == ([], s.fg);
    assert ColourStep(bgT, c.bg, s.bg) == ([], s.bg);
  }

  /** The style a terminal shows a cell in: its own, with colours the tables cannot
      name replaced by the default. */
  function Shown(fgT: ColourTable, bgT: ColourTable, c: Cell): Style
  {
    Style(c.bold, c.italics, c.underscore, c.blink, c.reverse, c.strikethrough,
          if c.fg in Colours(fgT) then c.fg else "default",
          if c.bg in Colours(bgT) then c.bg else "default")
  }

  /** A style the dumper can be in: its colours come from the tables or are defaults. */
  predicate Reachable(fgT: ColourTable, bgT: ColourTable, st: Style)
  {
    (st.fg in Colours(fgT) || st.fg == "default") && (st.bg in Colours(bgT) || st.bg == "default")
  }

  /** From a reachable state, the tracked state after a cell is the style that cell
      is shown in (so it is reachable again). */
  lemma TrackedIsShown(fgT: ColourTable, bgT: ColourTable, c: Cell, st: Style)
    requires Reachable(fgT, bgT, st)
    ensures AttributeChanges(fgT, bgT, c, st).1 == Shown(fgT, bgT, c)
    ensures Reachable(fgT, bgT, Shown(fgT, bgT, c))
  {
    AttributeChangesTracks(fgT, bgT, c, st);
  }

  /** One SGR parameter as a terminal applies it. */
  function ApplyCode(fgT: ColourTable, bgT: ColourTable, st: Style, n: int): Style
  {
    if n == 0 then Plain
    else if n == 1 then st.(bold := true)
    else if n == 3 then st.(italics := true)
    else if n == 4 then st.(underscore := true)
    else if n == 5 then st.(blink := true)
    else if n == 7 then st.(reverse := true)
    else if n == 9 then st.(strikethrough := true)
    else if ColourOf(fgT, n).Some? then st.(fg := ColourOf(fgT, n).value)
    else if ColourOf(bgT, n).Some? then st.(bg := ColourOf(bgT, n).value)
    else st
  }

  /** The parameters of one SGR sequence, applied left to right. */
  function ApplySgr(fgT: ColourTable, bgT: ColourTable, st: Style, codes: seq<int>): Style
  {
    if codes == [] then st
    else ApplyCode(fgT, bgT, ApplySgr(fgT, bgT, st, codes[..|codes| - 1]), codes[|codes| - 1])
  }

  lemma {:induction false} ApplySgrAppend(fgT: ColourTable, bgT: ColourTable, st: Style, a: seq<int>, b: seq<int>)
    ensures ApplySgr(fgT, bgT, st, a + b) == ApplySgr(fgT, bgT, ApplySgr(fgT, bgT, st, a), b)
    decreases |b|
  {
    if b == [] {
      assert a + b == a;
    } else {
      assert (a + b)[..|a + b| - 1] == a + b[..|b| - 1];
      ApplySgrAppend(fgT, bgT, st, a, b[..|b| - 1]);
    }
  }

  /** Appending an optional parameter applies it when present. */
  lemma OptStep(fgT: ColourTable, bgT: ColourTable, st: Style, k: seq<int>, b: bool, p: int)
    ensures ApplySgr(fgT, bgT, st, k + Opt(b, p))
         == if b then ApplyCode(fgT, bgT, ApplySgr(fgT, bgT, st, k), p) else ApplySgr(fgT, bgT, st, k)
  {
    if b {
      assert (k + [p])[..|k + [p]| - 1] == k;
    } else {
      assert k + Opt(b, p) == k;
    }
  }

  /** An optional parameter on its own is applied when present. */
  lemma OptApplies(fgT: ColourTable, bgT: ColourTable, x: Style, b: bool, p: int)
    ensures ApplySgr(fgT, bgT, x, Opt(b, p)) == if b then ApplyCode(fgT, bgT, x, p) else x
  {
    if b {
      assert [p][..0] == [];
    }
  }

  /** The bold, italics and underscore parameters set those flags. */
  lemma LowFlagsApply(fgT: ColourTable, bgT: ColourTable, c: Cell, reset: bool, s: Style)
    ensures ApplySgr(fgT, bgT, s, LowCodes(c, reset, s))
         == s.(bold := s.bold || c.bold, italics := s.italics || c.italics, underscore := s.underscore || c.underscore)
  {
    var b1, b2, b3 := Emits(c.bold, s.bold, reset), Emits(c.italics, s.italics, reset), Emits(c.underscore, s.underscore, reset);
    var k1, k2, k3 := Opt(b1, 1), Opt(b2, 3), Opt(b3, 4);
    ApplySgrAppend(fgT, bgT, s, k1 + k2, k3);
    ApplySgrAppend(fgT, bgT, s, k1, k2);
    OptApplies(fgT, bgT, s, b1, 1);
    var s1 := ApplySgr(fgT, bgT, s, k1);
    assert s1 == if b1 then s.(bold := true) else s;
    OptApplies(fgT, bgT, s1, b2, 3);
    var s2 := ApplySgr(fgT, bgT, s1, k2);
    assert s2 == if b2 then s1.(italics := true) else s1;
    OptApplies(fgT, bgT, s2, b3, 4);
    assert ApplySgr(fgT, bgT, s2, k3) == if b3 then s2.(underscore := true) else s2;
  }

  /** The blink, reverse and strikethrough parameters set those flags. */
  lemma HighFlagsApply(fgT: ColourTable, bgT: ColourTable, c: Cell, reset: bool, s: Style)
    ensures ApplySgr(fgT, bgT, s, HighCodes(c, reset, s))
         == s.(blink := s.blink || c.blink, reverse := s.reverse || c.reverse, strikethrough := s.strikethrough || c.strikethrough)
  {
    var b1, b2, b3 := Emits(c.blink, s.blink, reset), Emits(c.reverse, s.reverse, reset), Emits(c.strikethrough, s.strikethrough, reset);
    var k1, k2, k3 := Opt(b1, 5), Opt(b2, 7), Opt(b3, 9);
    ApplySgrAppend(fgT, bgT, s, k1 + k2, k3);
    ApplySgrAppend(fgT, bgT, s, k1, k2);
    OptApplies(fgT, bgT, s, b1, 5);
    var s1 := ApplySgr(fgT, bgT, s, k1);
    assert s1 == if b1 then s.(blink := true) else s;
    OptApplies(fgT, bgT, s1, b2, 7);
    var s2 := ApplySgr(fgT, bgT, s1, k2);
    assert s2 == if b2 then s1.(reverse := true) else s1;
    OptApplies(fgT, bgT, s2, b3, 9);
    assert ApplySgr(fgT, bgT, s2, k3) == if b3 then s2.(strikethrough := true) else s2;
  }

  /** The attribute parameters take a terminal from the tracked state to the
      tracked state with the cell's flags added. */
  lemma FlagCodesApply(fgT: ColourTable, bgT: ColourTable, c: Cell, reset: bool, s: Style)
    ensures ApplySgr(fgT, bgT, s, FlagCodes(c, reset, s)) == FlagState(c, s)
  {
    LowFlagsApply(fgT, bgT, c, reset, s);
    var t := ApplySgr(fgT, bgT, s, LowCodes(c, reset, s));
    HighFlagsApply(fgT, bgT, c, reset, t);
    assert HighCodes(c, reset, t) == HighCodes(c, reset, s);
    ApplySgrAppend(fgT, bgT, s, LowCodes(c, reset, s), HighCodes(c, reset, s));
  }

  lemma ColourStepApplies(fgT: ColourTable, bgT: ColourTable, st: Style, k: seq<int>,
                          colour: string, foreground: bool)
    requires TablesOk(fgT, bgT)
    ensures var s := ApplySgr(fgT, bgT, st, k);
      var r := ColourStep(if foreground then fgT else bgT, colour, if foreground then s.fg else s.bg);
      ApplySgr(fgT, bgT, st, k + r.0) == if foreground then s.(fg := r.1) else s.(bg := r.1)
  {
    var s := ApplySgr(fgT, bgT, st, k);
    var t := if foreground then fgT else bgT;
    if colour != (if foreground then s.fg else s.bg) && CodeFor(t, colour).Some? {
      var code := CodeFor(t, colour).value;
      OptStep(fgT, bgT, st, k, true, code);
      assert code in Codes(t);
      UniqueCodesColour(t, code, colour);
    } else {
      assert k + [] == k;
    }
  }

  /** The emitted parameters do exactly what the dumper tracks: a terminal that
      applies them ends in the tracked state. */
  lemma ChangesReachTracked(fgT: ColourTable, bgT: ColourTable, c: Cell, st: Style)
    requires TablesOk(fgT, bgT)
    ensures ApplySgr(fgT, bgT, st, AttributeChanges(fgT, bgT, c, st).0) == AttributeChanges(fgT, bgT, c, st).1
  {
    var reset := NeedsReset(c, st);
    var (k0, s0) := ResetStep(c, st);
    OptStep(fgT, bgT, st, [], reset, 0);
    assert k0 == [] + Opt(reset, 0);
    FlagCodesApply(fgT, bgT, c, reset, s0);
    ApplySgrAppend(fgT, bgT, st, k0, FlagCodes(c, reset, s0));
    var s6 := FlagState(c, s0);
    var f := k0 + FlagCodes(c, reset, s0);
    ColourStepApplies(fgT, bgT, st, f, c.fg, true);
    var (kf, fg) := ColourStep(fgT, c.fg, s6.fg);
    ColourStepApplies(fgT, bgT, st, f + kf, c.bg, false);
  }

  /** `get_attribute_changes` as the dumper runs it: a reset when needed, then
      the attribute steps, then one colour step per table. */
  method GetAttributeChanges(fgT: ColourTable, bgT: ColourTable, c: Cell, st: Style)
    returns (codes: seq<int>, st': Style)
    ensures (codes, st') == AttributeChanges(fgT, bgT, c, st)
  {
    codes := [];
    st' := st;
    var reset := NeedsReset(c, st);
    if reset {
      codes := codes + [0];
      st' := Plain;
    }
    var flags, fg, bg;
    flags, st' := SetFlags(c, reset, st');
    codes := codes + flags;
    fg, st' := ChangeColour(fgT, c.fg, st', true);
    bg, st' := ChangeColour(bgT, c.bg, st', false);
    assert (if reset then [0] else []) + flags + fg + bg == codes + fg + bg;
    codes := codes + fg + bg;
  }

  /** The attribute steps: each flag the cell has is emitted and tracked unless it
      is tracked already and no reset happened. */
  method SetFlags(c: Cell, reset: bool, s: Style) returns (codes: seq<int>, s': Style)
    ensures codes == FlagCodes(c, reset, s)
    ensures s' == FlagState(c, s)
  {
    var low, high;
    low, s' := SetLowFlags(c, reset, s);
    high, s' := SetHighFlags(c, reset, s');
    codes := low + high;
  }

  /** Bold, italics and underscore. */
  method SetLowFlags(c: Cell, reset: bool, s: Style) returns (codes: seq<int>, s': Style)
    ensures codes == LowCodes(c, reset, s)
    ensures s' == s.(bold := s.bold || c.bold, italics := s.italics || c.italics,
                     underscore := s.underscore || c.underscore)
  {
    var k1, k3, k4, bold, italics, underscore;
    k1, bold := FlagStep(c.bold, s.bold, reset, 1);
    k3, italics := FlagStep(c.italics, s.italics, reset, 3);
    k4, underscore := FlagStep(c.underscore, s.underscore, reset, 4);
    codes := k1 + k3 + k4;
    s' := s.(bold := bold, italics := italics, underscore := underscore);
  }

  /** Blink, reverse and strikethrough. */
  method SetHighFlags(c: Cell, reset: bool, s: Style) returns (codes: seq<int>, s': Style)
    ensures codes == HighCodes(c, reset, s)
    ensures s' == s.(blink := s.blink || c.blink, reverse := s.reverse || c.reverse,
                     strikethrough := s.strikethrough || c.strikethrough)
  {
    var k5, k7, k9, blink, reverse, strikethrough;
    k5, blink := FlagStep(c.blink, s.blink, reset, 5);
    k7, reverse := FlagStep(c.reverse, s.reverse, reset, 7);
    k9, strikethrough := FlagStep(c.strikethrough, s.strikethrough, reset, 9);
    codes := k5 + k7 + k9;
    s' := s.(blink := blink, reverse := reverse, strikethrough := strikethrough);
  }

  /** One attribute step: `if cell.<flag> and (reset or not current_state[<flag>])`. */
  method FlagStep(has: bool, tracked: bool, reset: bool, p: int) returns (codes: seq<int>, now: bool)
    ensures codes == Opt(Emits(has, tracked, reset), p)
    ensures now == (tracked || has)
  {
    codes := [];
    now := tracked;
    if has && (reset || !tracked) {
      codes := [p];
      now := true;
    }
  }

  /** A colour step on the foreground (or background) tracked colour. */
  method ChangeColour(t: ColourTable, wanted: string, s: Style, foreground: bool) returns (codes: seq<int>, s': Style)
    ensures var (k, colour) := ColourStep(t, wanted, if foreground then s.fg else s.bg);
      codes == k && s' == if foreground then s.(fg := colour) else s.(bg := colour)
  {
    codes := [];
    s' := s;
    if wanted != (if foreground then s.fg else s.bg) {
      var k := FindCode(t, wanted);
      if k.Some? {
        codes := [k.value];
        s' := if foreground then s.(fg := wanted) else s.(bg := wanted);
      }
    }
  }

  /** The search `for code, color in table.items(): if color == wanted: ... break`. */
  method FindCode(t: ColourTable, colour: string) returns (r: Option<int>)
    ensures r == CodeFor(t, colour)
  {
    var i := 0;
    while i < |t|
      invariant 0 <= i <= |t|
      invariant CodeFor(t, colour) == CodeFor(t[i..], colour)
    {
      assert t[i..][1..] == t[i + 1..];
      if t[i].1 == colour {
        return Some(t[i].0);
      }
      i := i + 1;
    }
    return None;
  }
}
