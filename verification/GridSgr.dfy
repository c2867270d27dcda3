/** Turning cells into text with SGR sequences (`grid_string_cells_code`), and reading the sequences
 * back with the terminal parser of the same program (`input_csi_dispatch_sgr`).
 *
 * A parameter is the list of its colon-separated numbers, so "4:2" is [4, 2].
 */
module GridSgr {
  import opened Bytes
  import opened GridCell
  import GridStore

  type Param = seq<nat>

  datatype Item =
    | Sgr(params: seq<Param>)
    | ShiftOut
    | ShiftIn
    | Text(bytes: seq<Byte>)

  // ---- The terminal: what it does with the sequences ----

  datatype Terminal = Terminal(attr: set<Attr>, fg: Colour, bg: Colour, us: Colour, charset: bool)

  const UNDERSCORES: set<Attr> := {Underscore, Underscore2, Underscore3, Underscore4, Underscore5}

  function Basic(n: Byte): Colour {
    Colour(n, 0, 0, false, false, false, 0)
  }

  function Indexed(n: Byte): Colour {
    Colour(n, 0, 0, true, false, false, 0)
  }

  function Rgb(r: Byte, g: Byte, b: Byte): Colour {
    Colour(b, g, r, false, true, false, 0)
  }

  function OnlyUnderscore(attr: set<Attr>, a: Attr): set<Attr> {
    attr - UNDERSCORES + {a}
  }

  /** The attributes after one plain number. */
  function NumberAttr(attr: set<Attr>, n: nat): set<Attr> {
    if n == 0 then {}
    else if n == 1 then attr + {Bright}
    else if n == 2 then attr + {Dim}
    else if n == 3 then attr + {Italics}
    else if n == 4 then OnlyUnderscore(attr, Underscore)
    else if n == 5 || n == 6 then attr + {Blink}
    else if n == 7 then attr + {Reverse}
    else if n == 8 then attr + {Hidden}
    else if n == 9 then attr + {Strikethrough}
    else if n == 21 then OnlyUnderscore(attr, Underscore2)
    else if n == 22 then attr - {Bright, Dim}
    else if n == 23 then attr - {Italics}
    else if n == 24 then attr - UNDERSCORES
    else if n == 25 then attr - {Blink}
    else if n == 27 then attr - {Reverse}
    else if n == 28 then attr - {Hidden}
    else if n == 29 then attr - {Strikethrough}
    else if n == 53 then attr + {Overline}
    else if n == 55 then attr - {Overline}
    else attr
  }

  /** One plain number. */
  function Number(t: Terminal, n: nat): Terminal {
    Terminal(NumberAttr(t.attr, n),
             if n == 0 || n == 39 then COLOUR_8 else if 30 <= n <= 37 then Basic(n - 30)
             else if 90 <= n <= 97 then Basic(n) else t.fg,
             if n == 0 || n == 49 then COLOUR_8 else if 40 <= n <= 47 then Basic(n - 40)
             else if 100 <= n <= 107 then Basic(n - 10) else t.bg,
             if n == 0 || n == 59 then COLOUR_8 else t.us,
             t.charset)
  }

  function SetColour(t: Terminal, which: nat, c: Colour): Terminal {
    if which == 38 then t.(fg := c) else if which == 48 then t.(bg := c) else if which == 58 then t.(us := c) else t
  }

  function SetIndexed(t: Terminal, which: nat, c: int): Terminal {
    if 0 <= c <= 255 then SetColour(t, which, Indexed(c))
    else if which == 38 || which == 48 then SetColour(t, which, COLOUR_8)
    else t
  }

  function SetRgb(t: Terminal, which: nat, r: int, g: int, b: int): Terminal {
    if 0 <= r <= 255 && 0 <= g <= 255 && 0 <= b <= 255 then SetColour(t, which, Rgb(r, g, b)) else t
  }

  /** A parameter with colons (`input_csi_dispatch_sgr_colon`). */
  function Colons(t: Terminal, p: Param): Terminal
    requires |p| >= 2
  {
    if p[0] == 4 then
      if |p| != 2 then t
      else if p[1] == 0 then t.(attr := t.attr - UNDERSCORES)
      else if p[1] == 1 then t.(attr := OnlyUnderscore(t.attr, Underscore))
      else if p[1] == 2 then t.(attr := OnlyUnderscore(t.attr, Underscore2))
      else if p[1] == 3 then t.(attr := OnlyUnderscore(t.attr, Underscore3))
      else if p[1] == 4 then t.(attr := OnlyUnderscore(t.attr, Underscore4))
      else if p[1] == 5 then t.(attr := OnlyUnderscore(t.attr, Underscore5))
      else t
    else if p[0] != 38 && p[0] != 48 && p[0] != 58 then t
    else if p[1] == 2 && |p| >= 5 then
      var i := if |p| == 5 then 2 else 3;
      if |p| < i + 3 then t else SetRgb(t, p[0], p[i], p[i + 1], p[i + 2])
    else if p[1] == 5 && |p| >= 3 then SetIndexed(t, p[0], p[2])
    else t
  }

  function Get(ps: seq<Param>, i: nat): int {
    if i < |ps| && |ps[i]| == 1 then ps[i][0] else -1
  }

  function Drop(ps: seq<Param>, n: nat): seq<Param> {
    if n <= |ps| then ps[n..] else []
  }

  /** The parameters of one sequence, from left to right. */
  function Params(t: Terminal, ps: seq<Param>): Terminal
    decreases |ps|
  {
    if ps == [] then t
    else if |ps[0]| >= 2 then Params(Colons(t, ps[0]), ps[1..])
    else if |ps[0]| == 0 then Params(t, ps[1..])
    else
      var n := ps[0][0];
      if n == 38 || n == 48 || n == 58 then
        var r, g, b := Get(ps, 2), Get(ps, 3), Get(ps, 4);
        if Get(ps, 1) == 2 then
          if 0 <= r <= 255 && 0 <= g <= 255 && 0 <= b <= 255 then Params(SetRgb(t, n, r, g, b), Drop(ps, 5))
          else Params(t, Drop(ps, 2))
        else if Get(ps, 1) == 5 then Params(SetIndexed(t, n, Get(ps, 2)), Drop(ps, 3))
        else Params(t, Drop(ps, 2))
      else Params(Number(t, n), ps[1..])
  }

  /** A colour means the same with colons, with or without a colour space, as with semicolons. */
  lemma ColonsMeanTheSame(t: Terminal, which: nat, space: nat, r: nat, g: nat, b: nat)
    requires which in {38, 48, 58} && r <= 255 && g <= 255 && b <= 255
    ensures Params(t, [[which, 2, r, g, b]]) == Params(t, [[which, 2, space, r, g, b]])
         == Params(t, [[which], [2], [r], [g], [b]]) == SetColour(t, which, Rgb(r, g, b))
    ensures Params(t, [[which, 5, r]]) == Params(t, [[which], [5], [r]]) == SetColour(t, which, Indexed(r))
  {
    hide SetColour;
    assert Params(t, []) == t;
    forall p: Param ensures [p][1..] == [] {}
    var ps: seq<Param> := [[which], [2], [r], [g], [b]];
    assert Drop(ps, 5) == [];
    var qs: seq<Param> := [[which], [5], [r]];
    assert Drop(qs, 3) == [];
  }

  function Receive(t: Terminal, item: Item): Terminal {
    match item
    case Sgr(ps) => if ps == [] then Number(t, 0) else Params(t, ps)
    case ShiftOut => t.(charset := true)
    case ShiftIn => t.(charset := false)
    case Text(_) => t
  }

  function ReceiveAll(t: Terminal, items: seq<Item>): Terminal
    decreases |items|
  {
    if items == [] then t else ReceiveAll(Receive(t, items[0]), items[1..])
  }

  /** What the terminal draws: each character with the style it has at that moment. */
  function Draw(t: Terminal, items: seq<Item>): seq<(seq<Byte>, Terminal)>
    decreases |items|
  {
    if items == [] then []
    else (if items[0].Text? then [(items[0].bytes, t)] else []) + Draw(Receive(t, items[0]), items[1..])
  }

  // ---- The grid: which sequences it sends ----

  const THEME: seq<Byte> := [0, 7, 7, 0, 2, 3, 1, 4, 6, 5]

  function ThemeColour(n: Byte): (c: Byte)
    ensures c <= 8
  {
    if n < |THEME| then THEME[n] else 8
  }

  /** `grid_string_cells_fg` and `_bg`; `base` is 30 or 40. */
  function ColourCodes(c: Colour, base: nat): seq<nat> {
    if c.theme then [if ThemeColour(c.low) == 8 then base + 9 else ThemeColour(c.low) + base]
    else if c.is256 then [base + 8, 5, c.low]
    else if c.rgb then [base + 8, 2, c.high, c.mid, c.low]
    else if c != Basic(c.low) then []
    else if c.low <= 7 then [c.low + base]
    else if c.low == 8 then [base + 9]
    else if 90 <= c.low <= 97 then [c.low + base - 30]
    else []
  }

  /** `grid_string_cells_us`. */
  function UnderscoreCodes(c: Colour): seq<nat> {
    if c.theme then if ThemeColour(c.low) == 8 then [59] else [58, 5, ThemeColour(c.low)]
    else if c.is256 then [58, 5, c.low]
    else if c.rgb then [58, 2, c.high, c.mid, c.low]
    else []
  }

  function Singles(ns: seq<nat>): seq<Param> {
    seq(|ns|, i requires 0 <= i < |ns| => [ns[i]])
  }

  /** `grid_string_cells_add_code`. */
  function AddCode(reset: bool, newc: seq<nat>, oldc: seq<nat>): seq<Item> {
    if newc == [] then []
    else if !reset && newc == oldc then []
    else if reset && (newc[0] == 49 || newc[0] == 39) then []
    else [Sgr(Singles(newc))]
  }

  /** The table of attributes that have a code, in the order of the table. */
  const NATTRS: nat := 13

  function AttrAt(k: nat): Attr
    requires k < NATTRS
  {
    if k == 0 then Bright else if k == 1 then Dim else if k == 2 then Italics
    else if k == 3 then Underscore else if k == 4 then Blink else if k == 5 then Reverse
    else if k == 6 then Hidden else if k == 7 then Strikethrough else if k == 8 then Underscore2
    else if k == 9 then Underscore3 else if k == 10 then Underscore4 else if k == 11 then Underscore5
    else Overline
  }

  function CodeAt(k: nat): nat
    requires k < NATTRS
  {
    if k < 5 then k + 1 else if k < 8 then k + 2 else if k < 12 then k + 34 else 53
  }

  /** The place of an attribute in the table; those without a code come after it. */
  function Index(a: Attr): nat {
    match a
    case Bright => 0 case Dim => 1 case Italics => 2 case Underscore => 3 case Blink => 4
    case Reverse => 5 case Hidden => 6 case Strikethrough => 7 case Underscore2 => 8
    case Underscore3 => 9 case Underscore4 => 10 case Underscore5 => 11 case Overline => 12
    case Charset => 13 case NoAttr => 14
  }

  lemma TableOrder(k: nat)
    requires k < NATTRS
    ensures Index(AttrAt(k)) == k
    ensures forall a :: Index(a) == k ==> a == AttrAt(k)
  {
  }

  predicate Coded(a: Attr) {
    a != Charset && a != NoAttr
  }

  /** How one attribute code is printed: from 10 up as two digits with a colon between. */
  function AttrParam(code: nat): Param {
    if code < 10 then [code] else [code / 10, code % 10]
  }

  predicate RemovedAt(last: Cell, gc: Cell, k: nat)
    requires k < NATTRS
  {
    (AttrAt(k) !in gc.attr && AttrAt(k) in last.attr) || (last.us != COLOUR_8 && gc.us == COLOUR_8)
  }

  /** An attribute, or the underscore colour, has to be taken away, which only a reset can do. */
  predicate Removed(last: Cell, gc: Cell) {
    exists k :: 0 <= k < NATTRS && RemovedAt(last, gc, k)
  }

  /** Codes of the attributes from table entry `k` on that are newly set. */
  function NewAttrs(attr: set<Attr>, lastattr: set<Attr>, k: nat): seq<Param>
    decreases NATTRS - k
  {
    if k >= NATTRS then []
    else (if AttrAt(k) in attr && AttrAt(k) !in lastattr then [AttrParam(CodeAt(k))] else [])
         + NewAttrs(attr, lastattr, k + 1)
  }

  function LastAttr(last: Cell, gc: Cell): set<Attr> {
    if Removed(last, gc) then last.attr * {Charset} else last.attr
  }

  function AttrItems(last: Cell, gc: Cell): seq<Item> {
    var s := (if Removed(last, gc) then [[0]] else []) + NewAttrs(gc.attr, LastAttr(last, gc), 0);
    if s == [] then [] else [Sgr(s)]
  }

  function Shift(last: Cell, gc: Cell): seq<Item> {
    if Charset in gc.attr && Charset !in last.attr then [ShiftOut]
    else if Charset !in gc.attr && Charset in last.attr then [ShiftIn]
    else []
  }

  /** `grid_string_cells_code`. */
  function Codes(last: Cell, gc: Cell): seq<Item> {
    var reset := Removed(last, gc);
    AttrItems(last, gc)
    + AddCode(reset, ColourCodes(gc.fg, 30), ColourCodes(last.fg, 30))
    + AddCode(reset, ColourCodes(gc.bg, 40), ColourCodes(last.bg, 40))
    + AddCode(reset, UnderscoreCodes(gc.us), UnderscoreCodes(last.us))
    + Shift(last, gc)
  }

  // ---- What a cell looks like ----

  /** The colour a theme colour is shown as. */
  function Shown(c: Colour): Colour {
    if c.theme then (if ThemeColour(c.low) == 8 then COLOUR_8 else Basic(ThemeColour(c.low)))
    else if c.is256 then Indexed(c.low)
    else if c.rgb then Rgb(c.high, c.mid, c.low)
    else c
  }

  function ShownUnderscore(c: Colour): Colour {
    if c.theme then (if ThemeColour(c.low) == 8 then COLOUR_8 else Indexed(ThemeColour(c.low)))
    else Shown(c)
  }

  function CodedOf(attr: set<Attr>): set<Attr> {
    set a | a in attr && Coded(a)
  }

  function Look(c: Cell): Terminal {
    Terminal(CodedOf(c.attr), Shown(c.fg), Shown(c.bg), ShownUnderscore(c.us), Charset in c.attr)
  }

  predicate HasCode(c: Colour) {
    c.theme || c.is256 || c.rgb || (c == Basic(c.low) && (c.low <= 8 || 90 <= c.low <= 97))
  }

  predicate OneUnderscore(attr: set<Attr>) {
    forall a, b :: a in attr * UNDERSCORES && b in attr * UNDERSCORES ==> a == b
  }

  /** The cells whose style can be sent: at most one kind of underscore, no overline (its code is
    * printed as "5:3", which means nothing to a terminal), colours that have a code. */
  predicate Sendable(c: Cell) {
    && OneUnderscore(c.attr) && Overline !in c.attr
    && HasCode(c.fg) && HasCode(c.bg)
    && (c.us == COLOUR_8 || c.us.theme || c.us.is256 || c.us.rgb)
  }

  // ---- Receiving a list of codes ----

  lemma {:induction false} ReceiveConcat(t: Terminal, a: seq<Item>, b: seq<Item>)
    ensures ReceiveAll(t, a + b) == ReceiveAll(ReceiveAll(t, a), b)
    decreases |a|
  {
    if a == [] {
      assert a + b == b;
    } else {
      assert (a + b)[1..] == a[1..] + b;
      ReceiveConcat(Receive(t, a[0]), a[1..], b);
    }
  }

  lemma ReceiveOne(t: Terminal, item: Item)
    ensures ReceiveAll(t, [item]) == Receive(t, item)
  {
    assert ReceiveAll(Receive(t, item), []) == Receive(t, item);
  }

  /** The colour part: after it the terminal shows the new colour. */
  lemma ColourReceived(t: Terminal, which: nat, reset: bool, new_: Colour, old_: Colour)
    requires which == 38 || which == 48
    requires HasCode(new_) && HasCode(old_)
    requires var now := if which == 38 then t.fg else t.bg; now == if reset then COLOUR_8 else Shown(old_)
    ensures ReceiveAll(t, AddCode(reset, ColourCodes(new_, which - 8), ColourCodes(old_, which - 8)))
            == SetColour(t, which, Shown(new_))
  {
    var newc, oldc := ColourCodes(new_, which - 8), ColourCodes(old_, which - 8);
    if !reset && newc == oldc {
      SameCodes(new_, old_, which - 8);
    } else if reset && (newc[0] == 49 || newc[0] == 39) {
      assert Shown(new_) == COLOUR_8;
    } else {
      ReceiveOne(t, Sgr(Singles(newc)));
      ParamsColour(t, newc, which, new_);
    }
  }

  lemma SameCodes(a: Colour, b: Colour, base: nat)
    requires HasCode(a) && HasCode(b) && (base == 30 || base == 40)
    requires ColourCodes(a, base) == ColourCodes(b, base)
    ensures Shown(a) == Shown(b)
  {
    var x, y := ColourCodes(a, base), ColourCodes(b, base);
    assert |x| == |y| && x[0] == y[0];
    if |x| == 3 {
      assert x[2] == y[2];
    } else if |x| == 5 {
      assert x[2] == y[2] && x[3] == y[3] && x[4] == y[4];
    }
  }

  lemma ParamsColour(t: Terminal, codes: seq<nat>, which: nat, c: Colour)
    requires which == 38 || which == 48
    requires HasCode(c) && codes == ColourCodes(c, which - 8)
    ensures Params(t, Singles(codes)) == SetColour(t, which, Shown(c))
  {
    if !c.theme && c.is256 {
      ParamsColour256(t, codes, which, c);
    } else if !c.theme && c.rgb {
      ParamsColourRgb(t, codes, which, c);
    } else {
      assert Singles(codes)[1..] == [];
    }
  }

  lemma ParamsColour256(t: Terminal, codes: seq<nat>, which: nat, c: Colour)
    requires (which == 38 || which == 48) && !c.theme && c.is256
    requires HasCode(c) && codes == ColourCodes(c, which - 8)
    ensures Params(t, Singles(codes)) == SetColour(t, which, Shown(c))
  {
    assert Drop(Singles(codes), 3) == [];
  }

  lemma ParamsColourRgb(t: Terminal, codes: seq<nat>, which: nat, c: Colour)
    requires (which == 38 || which == 48) && !c.theme && !c.is256 && c.rgb
    requires HasCode(c) && codes == ColourCodes(c, which - 8)
    ensures Params(t, Singles(codes)) == SetColour(t, which, Shown(c))
  {
    assert Drop(Singles(codes), 5) == [];
  }

  lemma UnderscoreReceived(t: Terminal, reset: bool, new_: Colour, old_: Colour)
    requires new_ == COLOUR_8 || new_.theme || new_.is256 || new_.rgb
    requires old_ == COLOUR_8 || old_.theme || old_.is256 || old_.rgb
    requires t.us == if reset then COLOUR_8 else ShownUnderscore(old_)
    requires old_ != COLOUR_8 && new_ == COLOUR_8 ==> reset
    ensures ReceiveAll(t, AddCode(reset, UnderscoreCodes(new_), UnderscoreCodes(old_))) == t.(us := ShownUnderscore(new_))
  {
    var newc, oldc := UnderscoreCodes(new_), UnderscoreCodes(old_);
    if newc == [] {
    } else if !reset && newc == oldc {
      assert |newc| == |oldc| && newc[0] == oldc[0];
      if |newc| == 3 {
        assert newc[2] == oldc[2];
      } else if |newc| == 5 {
        assert newc[2] == oldc[2] && newc[3] == oldc[3] && newc[4] == oldc[4];
      }
    } else {
      ReceiveOne(t, Sgr(Singles(newc)));
      ParamsUnderscore(t, newc, new_);
    }
  }

  lemma ParamsUnderscore(t: Terminal, codes: seq<nat>, c: Colour)
    requires c.theme || c.is256 || c.rgb
    requires codes == UnderscoreCodes(c)
    ensures Params(t, Singles(codes)) == t.(us := ShownUnderscore(c))
  {
    var ps := Singles(codes);
    if |codes| == 1 {
      assert ps[1..] == [];
    } else if |codes| == 3 {
      assert Drop(ps, 3) == [];
    } else {
      assert Drop(ps, 5) == [];
    }
  }

  /** The attributes from table entry `k` on that are newly set and have a code a terminal knows. */
  ghost function Added(attr: set<Attr>, lastattr: set<Attr>, k: nat): set<Attr> {
    set a | a in attr && a !in lastattr && a != Overline && k <= Index(a) < NATTRS
  }

  lemma AddedStep(attr: set<Attr>, lastattr: set<Attr>, k: nat)
    requires k < NATTRS
    ensures var a := AttrAt(k);
            Added(attr, lastattr, k) ==
              (if a in attr && a !in lastattr && a != Overline then {a} else {}) + Added(attr, lastattr, k + 1)
  {
    TableOrder(k);
  }

  /** One attribute code turns on its attribute, if no other kind of underscore is on. */
  lemma AttrNumber(t: Terminal, k: nat)
    requires k < NATTRS && OneUnderscore(t.attr + {AttrAt(k)})
    ensures var a, p := AttrAt(k), AttrParam(CodeAt(k));
            (if |p| == 1 then Number(t, p[0]) else Colons(t, p))
            == if a == Overline then t else t.(attr := t.attr + {a})
  {
    var a := AttrAt(k);
    if a in UNDERSCORES {
      assert t.attr - UNDERSCORES + {a} == t.attr + {a} by {
        forall b | b in t.attr && b in UNDERSCORES ensures b == a {
          assert b in (t.attr + {a}) * UNDERSCORES && a in (t.attr + {a}) * UNDERSCORES;
        }
      }
    }
  }

  lemma AttrReceived(t: Terminal, k: nat, rest: seq<Param>)
    requires k < NATTRS && OneUnderscore(t.attr + {AttrAt(k)})
    ensures Params(t, [AttrParam(CodeAt(k))] + rest)
            == Params(if AttrAt(k) == Overline then t else t.(attr := t.attr + {AttrAt(k)}), rest)
  {
    hide Number, Colons;
    AttrNumber(t, k);
    assert ([AttrParam(CodeAt(k))] + rest)[1..] == rest;
  }

  lemma {:induction false} AttrsReceived(t: Terminal, attr: set<Attr>, lastattr: set<Attr>, k: nat)
    requires k <= NATTRS && OneUnderscore(t.attr + Added(attr, lastattr, k))
    ensures Params(t, NewAttrs(attr, lastattr, k)) == t.(attr := t.attr + Added(attr, lastattr, k))
    decreases NATTRS - k
  {
    hide Params, AttrParam, AttrAt, CodeAt, Index, Added, OneUnderscore;
    if k < NATTRS {
      var a := AttrAt(k);
      var more := Added(attr, lastattr, k + 1);
      AddedStep(attr, lastattr, k);
      if a in attr && a !in lastattr {
        var t' := if a == Overline then t else t.(attr := t.attr + {a});
        OneUnderscorePart(t.attr + {a}, t.attr + Added(attr, lastattr, k), a);
        AttrReceived(t, k, NewAttrs(attr, lastattr, k + 1));
        assert t'.attr + more == t.attr + Added(attr, lastattr, k);
        AttrsReceived(t', attr, lastattr, k + 1);
      } else {
        assert {} + more == more;
        assert [] + NewAttrs(attr, lastattr, k + 1) == NewAttrs(attr, lastattr, k + 1);
        AttrsReceived(t, attr, lastattr, k + 1);
      }
    } else {
      ParamsNone(t);
      assert t.attr + {} == t.attr;
      NoneAdded(attr, lastattr);
    }
  }

  lemma NoneAdded(attr: set<Attr>, lastattr: set<Attr>)
    ensures Added(attr, lastattr, NATTRS) == {}
  {
  }

  lemma ParamsNone(t: Terminal)
    ensures Params(t, []) == t
  {
  }

  lemma OneUnderscorePart(part: set<Attr>, whole: set<Attr>, a: Attr)
    requires OneUnderscore(whole) && part <= whole + {Overline} && a in part
    ensures OneUnderscore(part)
  {
    forall x, y | x in part * UNDERSCORES && y in part * UNDERSCORES ensures x == y {
      assert x in whole * UNDERSCORES && y in whole * UNDERSCORES;
    }
  }

  // ---- The style arrives ----

  function Without(t: Terminal, a: Attr): Terminal {
    t.(attr := t.attr - {a})
  }

  predicate SendableLast(c: Cell) {
    && HasCode(c.fg) && HasCode(c.bg)
    && (c.us == COLOUR_8 || c.us.theme || c.us.is256 || c.us.rgb)
  }

  /** After the attribute codes the terminal has the attributes of the new cell, and either the old
    * colours or, after a reset, none. */
  lemma AttrItemsReceived(last: Cell, gc: Cell)
    requires OneUnderscore(gc.attr) && OneUnderscore(last.attr)
    ensures var t := Without(Look(last), Overline);
            ReceiveAll(t, AttrItems(last, gc)) ==
              if Removed(last, gc) then Terminal(CodedOf(gc.attr) - {Overline}, COLOUR_8, COLOUR_8, COLOUR_8, t.charset)
              else t.(attr := CodedOf(gc.attr) - {Overline})
  {
    hide Params, NewAttrs, Number, Shown, ShownUnderscore;
    var t := Without(Look(last), Overline);
    var reset := Removed(last, gc);
    var lastattr := LastAttr(last, gc);
    var base := if reset then Terminal({}, COLOUR_8, COLOUR_8, COLOUR_8, t.charset) else t;
    var codes := NewAttrs(gc.attr, lastattr, 0);
    var added := Added(gc.attr, lastattr, 0);
    assert base.attr + added == CodedOf(gc.attr) - {Overline} by {
      if !reset {
        forall a | a in last.attr && Coded(a) ensures a in gc.attr {
          assert AttrAt(Index(a)) == a;
          assert !RemovedAt(last, gc, Index(a));
        }
      }
    }
    assert OneUnderscore(base.attr + added) by {
      forall a, b | a in (base.attr + added) * UNDERSCORES && b in (base.attr + added) * UNDERSCORES ensures a == b {
        assert a in gc.attr * UNDERSCORES && b in gc.attr * UNDERSCORES;
      }
    }
    AttrsReceived(base, gc.attr, lastattr, 0);
    var s := (if reset then [[0]] else []) + codes;
    if s != [] {
      ReceiveOne(t, Sgr(s));
    }
    ResetFirst(t, codes);
    ParamsNone(t);
    assert [] + codes == codes;
  }

  lemma ResetFirst(t: Terminal, codes: seq<Param>)
    ensures Params(t, [[0]] + codes) == Params(Terminal({}, COLOUR_8, COLOUR_8, COLOUR_8, t.charset), codes)
  {
    assert ([[0]] + codes)[1..] == codes;
  }

  lemma ShiftReceived(t: Terminal, last: Cell, gc: Cell)
    requires t.charset == (Charset in last.attr)
    ensures ReceiveAll(t, Shift(last, gc)) == t.(charset := Charset in gc.attr)
  {
    if Shift(last, gc) != [] {
      ReceiveOne(t, Shift(last, gc)[0]);
    }
  }

  /** Sending the difference between two cells leaves the terminal with the style of the new one, but
    * never with an overline. */
  lemma CodesReceived(last: Cell, gc: Cell)
    requires OneUnderscore(last.attr) && OneUnderscore(gc.attr) && SendableLast(last) && SendableLast(gc)
    ensures ReceiveAll(Without(Look(last), Overline), Codes(last, gc)) == Without(Look(gc), Overline)
  {
    hide AttrItems, AddCode, Shift, Removed, ColourCodes, UnderscoreCodes, Shown, ShownUnderscore;
    var reset := Removed(last, gc);
    var t := Without(Look(last), Overline);
    var a := AttrItems(last, gc);
    var f := AddCode(reset, ColourCodes(gc.fg, 30), ColourCodes(last.fg, 30));
    var b := AddCode(reset, ColourCodes(gc.bg, 40), ColourCodes(last.bg, 40));
    var u := AddCode(reset, UnderscoreCodes(gc.us), UnderscoreCodes(last.us));
    var s := Shift(last, gc);
    ReceiveConcat(t, a + f + b + u, s);
    ReceiveConcat(t, a + f + b, u);
    ReceiveConcat(t, a + f, b);
    ReceiveConcat(t, a, f);
    AttrItemsReceived(last, gc);
    var t1 := ReceiveAll(t, a);
    ColourReceived(t1, 38, reset, gc.fg, last.fg);
    var t2 := ReceiveAll(t1, f);
    ColourReceived(t2, 48, reset, gc.bg, last.bg);
    var t3 := ReceiveAll(t2, b);
    if last.us != COLOUR_8 && gc.us == COLOUR_8 {
      UnderscoreResets(last, gc);
    }
    UnderscoreReceived(t3, reset, gc.us, last.us);
    ShiftReceived(ReceiveAll(t3, u), last, gc);
  }

  lemma UnderscoreResets(last: Cell, gc: Cell)
    requires last.us != COLOUR_8 && gc.us == COLOUR_8
    ensures Removed(last, gc)
  {
    assert RemovedAt(last, gc, 0);
  }

  // ---- Exactly which cells can be sent ----

  predicate TermColour(c: Colour) {
    c == Indexed(c.low) || c == Rgb(c.high, c.mid, c.low) || (c == Basic(c.low) && (c.low <= 8 || 90 <= c.low <= 97))
  }

  /** What holds of every terminal: one underscore at most, and colours it knows. */
  predicate TermOk(t: Terminal) {
    && OneUnderscore(t.attr) && TermColour(t.fg) && TermColour(t.bg)
    && (t.us == COLOUR_8 || t.us == Indexed(t.us.low) || t.us == Rgb(t.us.high, t.us.mid, t.us.low))
  }

  /** A set of attributes has one underscore if what it adds to another is not an underscore, or is
    * its only one. */
  lemma OneUnderscoreFrom(attr: set<Attr>, now: set<Attr>, a: Attr)
    requires OneUnderscore(attr)
    requires (forall x :: x in now && x in UNDERSCORES ==> x in attr) || (forall x :: x in now && x in UNDERSCORES ==> x == a)
    ensures OneUnderscore(now)
  {
    forall x, y | x in now * UNDERSCORES && y in now * UNDERSCORES ensures x == y {
      assert x in attr && y in attr ==> x in attr * UNDERSCORES && y in attr * UNDERSCORES;
    }
  }

  lemma NumberAttrOk(attr: set<Attr>, n: nat)
    requires OneUnderscore(attr)
    ensures OneUnderscore(NumberAttr(attr, n))
  {
    hide OneUnderscore;
    OneUnderscoreFrom(attr, NumberAttr(attr, n), if n == 21 then Underscore2 else Underscore);
  }

  lemma NumberOk(t: Terminal, n: nat)
    requires TermOk(t)
    ensures TermOk(Number(t, n))
  {
    hide NumberAttr, OneUnderscore;
    NumberAttrOk(t.attr, n);
  }

  lemma SetColourOk(t: Terminal, which: nat, c: Colour)
    requires TermOk(t) && TermColour(c)
    requires which == 58 ==> c == Indexed(c.low) || c == Rgb(c.high, c.mid, c.low)
    ensures TermOk(SetColour(t, which, c))
  {
    hide OneUnderscore, TermColour;
  }

  lemma SetOk(t: Terminal, which: nat, c: int, r: int, g: int, b: int)
    requires TermOk(t)
    ensures TermOk(SetIndexed(t, which, c)) && TermOk(SetRgb(t, which, r, g, b))
  {
    hide TermOk, SetColour;
    if 0 <= c <= 255 {
      SetColourOk(t, which, Indexed(c));
    } else if which == 38 || which == 48 {
      SetColourOk(t, which, COLOUR_8);
    }
    if 0 <= r <= 255 && 0 <= g <= 255 && 0 <= b <= 255 {
      SetColourOk(t, which, Rgb(r, g, b));
    }
  }

  lemma ColonsOk(t: Terminal, p: Param)
    requires TermOk(t) && |p| >= 2
    ensures TermOk(Colons(t, p))
  {
    hide OneUnderscore, SetIndexed, SetRgb, TermColour;
    if p[0] == 4 && |p| == 2 {
      OneUnderscoreFrom(t.attr, Colons(t, p).attr, if p[1] == 2 then Underscore2 else if p[1] == 3 then Underscore3
                        else if p[1] == 4 then Underscore4 else if p[1] == 5 then Underscore5 else Underscore);
    } else {
      var i := if |p| == 5 then 2 else 3;
      if |p| >= i + 3 {
        SetOk(t, p[0], p[2], p[i], p[i + 1], p[i + 2]);
      } else if |p| >= 3 {
        SetOk(t, p[0], p[2], 0, 0, 0);
      }
    }
  }

  lemma {:induction false} ParamsOk(t: Terminal, ps: seq<Param>)
    requires TermOk(t)
    ensures TermOk(Params(t, ps))
    decreases |ps|
  {
    hide Number, Colons, TermOk, SetIndexed, SetRgb, Get;
    if ps != [] {
      if |ps[0]| >= 2 {
        ColonsOk(t, ps[0]);
        ParamsOk(Colons(t, ps[0]), ps[1..]);
      } else if |ps[0]| == 0 {
        ParamsOk(t, ps[1..]);
      } else {
        var n := ps[0][0];
        var r, g, b := Get(ps, 2), Get(ps, 3), Get(ps, 4);
        NumberOk(t, n);
        SetOk(t, n, r, r, g, b);
        ParamsOk(Number(t, n), ps[1..]);
        ParamsOk(t, Drop(ps, 2));
        ParamsOk(SetIndexed(t, n, r), Drop(ps, 3));
        ParamsOk(SetRgb(t, n, r, g, b), Drop(ps, 5));
      }
    }
  }

  lemma {:induction false} ReceiveOk(t: Terminal, items: seq<Item>)
    requires TermOk(t)
    ensures TermOk(ReceiveAll(t, items))
    decreases |items|
  {
    hide Params, Number, TermOk;
    if items != [] {
      if items[0].Sgr? {
        NumberOk(t, 0);
        ParamsOk(t, items[0].params);
      }
      ShiftOk(t);
      ReceiveOk(Receive(t, items[0]), items[1..]);
    }
  }

  lemma ShiftOk(t: Terminal)
    requires TermOk(t)
    ensures TermOk(t.(charset := true)) && TermOk(t.(charset := false))
  {
  }

  lemma LookOk(c: Cell)
    ensures TermOk(Look(c)) && Overline !in c.attr <==> Sendable(c)
  {
    assert forall a :: a in Look(c).attr * UNDERSCORES <==> a in c.attr * UNDERSCORES;
  }

  /** From a terminal showing a cell that could be sent, the codes for the next cell make the terminal
    * show that cell exactly when it can be sent: at most one underscore, no overline, known colours. */
  lemma CodesExact(last: Cell, gc: Cell)
    requires Sendable(last)
    ensures ReceiveAll(Look(last), Codes(last, gc)) == Look(gc) <==> Sendable(gc)
  {
    hide Codes, Look, TermOk, ReceiveAll;
    LookOk(last);
    LookOk(gc);
    assert Without(Look(last), Overline) == Look(last) by { NoOverline(last); }
    ReceiveOk(Look(last), Codes(last, gc));
    if Sendable(gc) {
      CodesReceived(last, gc);
      NoOverline(gc);
    } else if ReceiveAll(Look(last), Codes(last, gc)) == Look(gc) {
      OverlineLost(last, gc);
    }
  }

  lemma NoOverline(c: Cell)
    ensures Without(Look(c), Overline) == Look(c) <==> Overline !in c.attr
  {
    if Overline in c.attr {
      assert Overline in Look(c).attr;
    }
  }

  /** A cell that fails only by its overline is shown without it. */
  lemma OverlineLost(last: Cell, gc: Cell)
    requires Sendable(last) && TermOk(Look(gc)) && Overline in gc.attr
    ensures ReceiveAll(Look(last), Codes(last, gc)) != Look(gc)
  {
    var bare := gc.(attr := gc.attr - {Overline});
    assert TermOk(Look(bare)) by {
      assert forall a :: a in Look(bare).attr * UNDERSCORES <==> a in Look(gc).attr * UNDERSCORES;
    }
    LookOk(bare);
    NoOverline(gc);
    NoOverline(last);
    assert OneUnderscore(gc.attr) by {
      forall a, b | a in gc.attr * UNDERSCORES && b in gc.attr * UNDERSCORES ensures a == b {
        assert a in bare.attr * UNDERSCORES && b in bare.attr * UNDERSCORES;
      }
    }
    CodesReceived(last, gc);
  }

  // ---- Whole runs of cells ----

  function TextOf(c: Cell): seq<Byte> {
    if c.flags.tab then [9] else c.glyph.bytes
  }

  /** The items sent for a run of cells, each styled against the one before it. */
  function Sent(last: Cell, cells: seq<Cell>): seq<Item>
    decreases |cells|
  {
    if cells == [] then [] else Codes(last, cells[0]) + [Text(TextOf(cells[0]))] + Sent(cells[0], cells[1..])
  }

  /** What should be drawn: every character in the style of its cell. */
  function Wanted(cells: seq<Cell>): seq<(seq<Byte>, Terminal)> {
    seq(|cells|, i requires 0 <= i < |cells| => (TextOf(cells[i]), Look(cells[i])))
  }

  lemma {:induction false} DrawCodes(t: Terminal, codes: seq<Item>, rest: seq<Item>)
    requires forall i :: 0 <= i < |codes| ==> !codes[i].Text?
    ensures Draw(t, codes + rest) == Draw(ReceiveAll(t, codes), rest)
    decreases |codes|
  {
    hide Receive;
    if codes == [] {
      assert codes + rest == rest;
    } else {
      assert (codes + rest)[1..] == codes[1..] + rest;
      DrawCodes(Receive(t, codes[0]), codes[1..], rest);
      assert Draw(t, codes + rest) == [] + Draw(Receive(t, codes[0]), codes[1..] + rest);
    }
  }

  lemma CodesAreNotText(last: Cell, gc: Cell)
    ensures forall i :: 0 <= i < |Codes(last, gc)| ==> !Codes(last, gc)[i].Text?
  {
    hide ColourCodes, UnderscoreCodes, NewAttrs, Removed;
  }

  lemma DrawCell(last: Cell, c: Cell, rest: seq<Item>)
    ensures var t := ReceiveAll(Look(last), Codes(last, c));
            Draw(Look(last), Codes(last, c) + [Text(TextOf(c))] + rest) == [(TextOf(c), t)] + Draw(t, rest)
  {
    hide Codes, Look, ReceiveAll;
    CodesAreNotText(last, c);
    var more := [Text(TextOf(c))] + rest;
    assert Codes(last, c) + [Text(TextOf(c))] + rest == Codes(last, c) + more;
    DrawCodes(Look(last), Codes(last, c), more);
    assert more[1..] == rest;
  }

  /** A run of cells is drawn with exactly their styles if and only if every cell can be sent. */
  lemma {:induction false} RunDrawn(last: Cell, cells: seq<Cell>)
    requires Sendable(last)
    ensures Draw(Look(last), Sent(last, cells)) == Wanted(cells) <==> forall i :: 0 <= i < |cells| ==> Sendable(cells[i])
    decreases |cells|
  {
    hide Codes, Look, ReceiveAll, Sendable;
    if cells != [] {
      var c := cells[0];
      DrawCell(last, c, Sent(c, cells[1..]));
      CodesExact(last, c);
      assert Wanted(cells)[0] == (TextOf(c), Look(c));
      assert Wanted(cells)[1..] == Wanted(cells[1..]);
      if Sendable(c) {
        RunDrawn(c, cells[1..]);
        assert Wanted(cells) == [(TextOf(c), Look(c))] + Wanted(cells[1..]);
        assert forall i :: 0 < i < |cells| ==> cells[i] == cells[1..][i - 1];
        assert forall i :: 0 <= i < |cells[1..]| ==> cells[1..][i] == cells[i + 1];
        DrawnTail((TextOf(c), Look(c)), Draw(Look(c), Sent(c, cells[1..])), Wanted(cells[1..]));
      }
    }
  }

  lemma DrawnTail<T>(x: T, a: seq<T>, b: seq<T>)
    ensures [x] + a == [x] + b <==> a == b
  {
    assert ([x] + a)[1..] == a && ([x] + b)[1..] == b;
  }

  /** Sending only the difference gives the same terminal as resetting it and sending everything. */
  lemma DifferenceIsEnough(last: Cell, gc: Cell, t: Terminal)
    requires Sendable(last) && Sendable(gc)
    ensures ReceiveAll(Look(last), Codes(last, gc)) == ReceiveAll(t, [Sgr([[0]]), ShiftIn] + Codes(DEFAULT_CELL, gc))
  {
    hide Codes, TermOk, Sendable;
    CodesExact(last, gc);
    assert Sendable(DEFAULT_CELL) by { DefaultSendable(); }
    CodesExact(DEFAULT_CELL, gc);
    var reset := [Sgr([[0]]), ShiftIn];
    ReceiveConcat(t, reset, Codes(DEFAULT_CELL, gc));
    ResetIsDefault(t);
  }

  lemma DefaultSendable()
    ensures Sendable(DEFAULT_CELL)
  {
    assert forall a :: a !in DEFAULT_CELL.attr * UNDERSCORES;
  }

  lemma ResetIsDefault(t: Terminal)
    ensures ReceiveAll(t, [Sgr([[0]]), ShiftIn]) == Look(DEFAULT_CELL)
  {
    var t1 := Receive(t, Sgr([[0]]));
    assert [[0]][1..] == [];
    assert [Sgr([[0]]), ShiftIn][1..] == [ShiftIn];
    ReceiveOne(t1, ShiftIn);
    assert CodedOf({}) == {};
  }

  // ---- The code ----

  /** The first loop over the attribute table. */
  method NeedsReset(last: Cell, gc: Cell) returns (reset: bool)
    ensures reset == Removed(last, gc)
  {
    hide AttrAt;
    var i := 0;
    while i < NATTRS
      invariant i <= NATTRS && forall k :: 0 <= k < i ==> !RemovedAt(last, gc, k)
    {
      if (AttrAt(i) !in gc.attr && AttrAt(i) in last.attr) || (last.us != COLOUR_8 && gc.us == COLOUR_8) {
        assert RemovedAt(last, gc, i);
        return true;
      }
      i := i + 1;
    }
    reset := false;
  }

  lemma NewAttrsStep(s: seq<Param>, attr: set<Attr>, lastattr: set<Attr>, k: nat)
    requires k <= NATTRS
    ensures s + NewAttrs(attr, lastattr, k) ==
              if k == NATTRS then s
              else if AttrAt(k) in attr && AttrAt(k) !in lastattr then
                (s + [AttrParam(CodeAt(k))]) + NewAttrs(attr, lastattr, k + 1)
              else s + NewAttrs(attr, lastattr, k + 1)
  {
    hide AttrAt, CodeAt, AttrParam;
    if k < NATTRS {
      var more := NewAttrs(attr, lastattr, k + 1);
      assert s + ([AttrParam(CodeAt(k))] + more) == (s + [AttrParam(CodeAt(k))]) + more;
      assert s + ([] + more) == s + more;
    } else {
      assert s + [] == s;
    }
  }

  /** Both loops over the attribute table. */
  method AttrCodes(last: Cell, gc: Cell) returns (s: seq<Param>, lastattr: set<Attr>)
    ensures s == (if Removed(last, gc) then [[0]] else []) + NewAttrs(gc.attr, LastAttr(last, gc), 0)
    ensures lastattr == LastAttr(last, gc)
  {
    hide AttrAt, CodeAt, AttrParam, Removed, NewAttrs;
    var reset := NeedsReset(last, gc);
    s, lastattr := [], last.attr;
    if reset {
      s, lastattr := [[0]], lastattr * {Charset};
    }
    ghost var all := s + NewAttrs(gc.attr, lastattr, 0);
    var i := 0;
    while i < NATTRS
      invariant i <= NATTRS && s + NewAttrs(gc.attr, lastattr, i) == all
    {
      NewAttrsStep(s, gc.attr, lastattr, i);
      if AttrAt(i) in gc.attr && AttrAt(i) !in lastattr {
        s := s + [AttrParam(CodeAt(i))];
      }
      i := i + 1;
    }
    NewAttrsStep(s, gc.attr, lastattr, i);
  }

  method StringCellsCode(last: Cell, gc: Cell) returns (items: seq<Item>)
    ensures items == Codes(last, gc)
  {
    hide NewAttrs, Removed, ColourCodes, UnderscoreCodes;
    var s, lastattr := AttrCodes(last, gc);
    items := if s == [] then [] else [Sgr(s)];
    var reset := s != [] && s[0] == [0];
    assert reset == Removed(last, gc) by { FirstIsReset(last, gc); }
    items := items + AddCode(reset, ColourCodes(gc.fg, 30), ColourCodes(last.fg, 30));
    items := items + AddCode(reset, ColourCodes(gc.bg, 40), ColourCodes(last.bg, 40));
    items := items + AddCode(reset, UnderscoreCodes(gc.us), UnderscoreCodes(last.us));
    if Charset in gc.attr && Charset !in lastattr {
      items := items + [ShiftOut];
    }
    if Charset !in gc.attr && Charset in lastattr {
      items := items + [ShiftIn];
    }
  }

  lemma {:induction false} NoZeroCode(attr: set<Attr>, lastattr: set<Attr>, k: nat)
    ensures forall i :: 0 <= i < |NewAttrs(attr, lastattr, k)| ==> NewAttrs(attr, lastattr, k)[i] != [0]
    decreases NATTRS - k
  {
    if k < NATTRS {
      NoZeroCode(attr, lastattr, k + 1);
    }
  }

  lemma FirstIsReset(last: Cell, gc: Cell)
    ensures var s := (if Removed(last, gc) then [[0]] else []) + NewAttrs(gc.attr, LastAttr(last, gc), 0);
            (s != [] && s[0] == [0]) <==> Removed(last, gc)
  {
    NoZeroCode(gc.attr, LastAttr(last, gc), 0);
  }

  /** The cells of a line that are drawn: padding cells belong to the character before them. */
  function Visible(cells: seq<Cell>): seq<Cell> {
    if cells == [] then []
    else Visible(cells[..|cells| - 1]) + if cells[|cells| - 1].flags.padding then [] else [cells[|cells| - 1]]
  }

  predicate NoPadding(cells: seq<Cell>) {
    forall c :: c in cells ==> !c.flags.padding
  }

  /** Exactly the padding cells are left out, and a cell sends its character, or a tab if it stands for one. */
  lemma {:induction false} VisibleExact(cells: seq<Cell>)
    ensures NoPadding(Visible(cells)) && (NoPadding(cells) <==> Visible(cells) == cells)
    ensures forall c :: c in cells && !c.flags.padding ==> c in Visible(cells)
    ensures forall c :: c in cells ==> (TextOf(c) == c.glyph.bytes || TextOf(c) == [9]) && (c.flags.tab ==> TextOf(c) == [9])
    ensures forall c :: c in cells && !c.flags.tab ==> TextOf(c) == c.glyph.bytes
  {
    if cells != [] {
      var n := |cells| - 1;
      VisibleExact(cells[..n]);
      assert cells == cells[..n] + [cells[n]];
      VisibleShorter(cells[..n]);
    }
  }

  lemma {:induction false} VisibleShorter(cells: seq<Cell>)
    ensures |Visible(cells)| <= |cells|
  {
    if cells != [] { VisibleShorter(cells[..|cells| - 1]); }
  }

  lemma {:induction false} SentMore(last: Cell, cells: seq<Cell>, c: Cell)
    ensures Sent(last, cells + [c])
            == Sent(last, cells) + (Codes(if cells == [] then last else cells[|cells| - 1], c) + [Text(TextOf(c))])
    decreases |cells|
  {
    hide Codes;
    if cells == [] {
      assert Sent(c, []) == [];
      assert (cells + [c])[1..] == [];
    } else {
      assert (cells + [c])[1..] == cells[1..] + [c];
      SentMore(cells[0], cells[1..], c);
    }
  }

  /** `grid_string_cells` with sequences and without trimming: the used cells of a line from `px` on,
    * at most `nx` of them, starting from the default style. */
  method StringCells(gd: GridStore.Grid, px: nat, py: nat, nx: nat) returns (out: seq<Item>)
    requires gd.Ok()
    ensures py >= |gd.linedata| ==> out == []
    ensures py < |gd.linedata| ==>
      var gl := gd.linedata[py];
      var end := if px + nx < gl.cellused then px + nx else gl.cellused;
      out == Sent(DEFAULT_CELL, Visible(seq(if px < end then end - px else 0, (i: nat) => Read(gl, px + i))))
  {
    hide Codes, GridCell.OkExcept, GridCell.GetCell1;
    out := [];
    if py >= gd.hsize + gd.sy {
      return;
    }
    var gl := gd.linedata[py];
    var last := DEFAULT_CELL;
    var xx := px;
    ghost var cells: seq<Cell> := [];
    while xx < px + nx
      invariant px <= xx <= px + nx && (xx <= gl.cellused || xx == px) && |cells| == xx - px
      invariant cells == seq(xx - px, (i: nat) => Read(gl, px + i))
      invariant out == Sent(DEFAULT_CELL, Visible(cells))
      invariant last == if Visible(cells) == [] then DEFAULT_CELL else Visible(cells)[|Visible(cells)| - 1]
    {
      if xx >= gl.cellused {
        break;
      }
      var gc := gd.GetCell(xx, py);
      ghost var more := cells + [gc];
      assert more[..|more| - 1] == cells && more[|more| - 1] == gc;
      assert Visible(more) == if gc.flags.padding then Visible(cells) else Visible(cells) + [gc];
      if !gc.flags.padding {
        var code := StringCellsCode(last, gc);
        SentMore(DEFAULT_CELL, Visible(cells), gc);
        out := out + (code + [Text(TextOf(gc))]);
        last := gc;
      }
      cells := more;
      xx := xx + 1;
    }
  }
}
