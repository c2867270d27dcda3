/** The bytes a control-mode client sees: lines, and messages that carry escaped pane output. */
module ControlOutput {

  import opened Bytes

  type PaneId = nat

  datatype Kind = Begin | Close | Reply | Notify

  /** An accepted line.  The number says when it was accepted; output blocks are numbered with it. */
  datatype Line = Line(id: nat, kind: Kind, text: seq<Byte>)

  /** What goes to the client: a line, or one output message whose first byte comes from block
    * `first`. */
  datatype Item =
    | Wrote(line: Line)
    | Message(pane: PaneId, first: nat, head: seq<Byte>, payload: seq<Byte>)

  /** The length of an item with its newline. */
  function Len(item: Item): nat {
    match item
    case Wrote(line) => |line.text| + 1
    case Message(_, _, head, payload) => |head| + |payload| + 1
  }

  const BACKSLASH: Byte := 0x5c

  function Octal(b: Byte): seq<Byte> {
    [BACKSLASH, 0x30 + b / 64, 0x30 + b / 8 % 8, 0x30 + b % 8]
  }

  predicate Plain(b: Byte) {
    b >= 0x20 && b != BACKSLASH
  }

  /** How `control_append_data` writes pane output: control characters and backslashes in octal. */
  function Escape(s: seq<Byte>): seq<Byte> {
    if s == [] then [] else (if Plain(s[0]) then [s[0]] else Octal(s[0])) + Escape(s[1..])
  }

  function Value(a: int, b: int, c: int): int {
    (a - 0x30) * 64 + (b - 0x30) * 8 + (c - 0x30)
  }

  /** The text starts with a backslash and three octal digits. */
  predicate Escaped(s: seq<Byte>) {
    |s| >= 4 && s[0] == BACKSLASH && 0 <= Value(s[1], s[2], s[3]) < 256
  }

  /** How a client reads it back. */
  function Unescape(s: seq<Byte>): seq<Byte> {
    if s == [] then []
    else if Escaped(s) then [Value(s[1], s[2], s[3])] + Unescape(s[4..])
    else [s[0]] + Unescape(s[1..])
  }

  lemma {:induction false} EscapeConcat(a: seq<Byte>, b: seq<Byte>)
    ensures Escape(a + b) == Escape(a) + Escape(b)
  {
    if a == [] {
      assert a + b == b;
    } else {
      assert (a + b)[1..] == a[1..] + b;
      EscapeConcat(a[1..], b);
    }
  }

  lemma OctalValue(b: Byte, tail: seq<Byte>)
    ensures Escaped(Octal(b) + tail) && Unescape(Octal(b) + tail) == [b] + Unescape(tail)
  {
    var s := Octal(b) + tail;
    assert b / 8 / 8 == b / 64;
    assert Value(s[1], s[2], s[3]) == b;
    assert s[4..] == tail;
  }

  lemma PlainValue(b: Byte, tail: seq<Byte>)
    requires Plain(b)
    ensures Unescape([b] + tail) == [b] + Unescape(tail)
  {
    assert ([b] + tail)[1..] == tail;
  }

  /** Un-escaping undoes escaping, whatever follows. */
  lemma {:induction false} UnescapeEscape(a: seq<Byte>, rest: seq<Byte>)
    ensures Unescape(Escape(a) + rest) == a + Unescape(rest)
  {
    hide Unescape;
    if a == [] {
      assert Escape(a) + rest == rest;
    } else {
      UnescapeEscape(a[1..], rest);
      var tail := Escape(a[1..]) + rest;
      assert Escape(a) + rest == (if Plain(a[0]) then [a[0]] else Octal(a[0])) + tail;
      if Plain(a[0]) {
        PlainValue(a[0], tail);
      } else {
        OctalValue(a[0], tail);
      }
      assert [a[0]] + (a[1..] + Unescape(rest)) == a + Unescape(rest);
    }
  }

  /** The escaping loop of `control_append_data`, which copies runs of plain bytes at once. */
  method EscapeBytes(message: seq<Byte>, data: seq<Byte>, size: nat) returns (out: seq<Byte>)
    requires size <= |data|
    ensures out == message + Escape(data[..size])
  {
    hide Escape;
    out := message;
    var i := 0;
    EscapeNone(message, data);
    while i < size
      invariant i <= size && out == message + Escape(data[..i])
    {
      if !Plain(data[i]) {
        EscapeStep(data, i, i + 1);
        EscapeAssoc(message, Escape(data[..i]), Octal(data[i]));
        out := out + Octal(data[i]);
      } else {
        var start := i;
        while i + 1 < size && Plain(data[i + 1])
          invariant start <= i < size && forall k :: start <= k <= i ==> Plain(data[k])
        {
          i := i + 1;
        }
        EscapeStep(data, start, i + 1);
        PlainRun(data[start..i + 1]);
        EscapeAssoc(message, Escape(data[..start]), data[start..i + 1]);
        out := out + data[start..i + 1];
      }
      i := i + 1;
    }
  }

  lemma EscapeNone(message: seq<Byte>, data: seq<Byte>)
    ensures message + Escape(data[..0]) == message
  {
  }

  lemma EscapeAssoc(a: seq<Byte>, b: seq<Byte>, c: seq<Byte>)
    ensures a + (b + c) == (a + b) + c
  {
  }

  lemma EscapeStep(data: seq<Byte>, i: nat, j: nat)
    requires i < j <= |data|
    ensures Escape(data[..j]) == Escape(data[..i]) + Escape(data[i..j])
    ensures j == i + 1 && !Plain(data[i]) ==> Escape(data[i..j]) == Octal(data[i])
  {
    assert data[..j] == data[..i] + data[i..j];
    EscapeConcat(data[..i], data[i..j]);
    if j == i + 1 && !Plain(data[i]) {
      assert data[i..j] == [data[i]];
      assert Escape([data[i]]) == Octal(data[i]) + Escape([]);
    }
  }

  lemma {:induction false} PlainRun(s: seq<Byte>)
    requires forall i :: 0 <= i < |s| ==> Plain(s[i])
    ensures Escape(s) == s
  {
    if s != [] {
      PlainRun(s[1..]);
    }
  }

  /** The output of one pane that a client can read off the items it received. */
  function Seen(out: seq<Item>, p: PaneId): seq<Byte> {
    if out == [] then []
    else (if out[0].Message? && out[0].pane == p then Unescape(out[0].payload) else []) + Seen(out[1..], p)
  }

  lemma {:induction false} SeenConcat(a: seq<Item>, b: seq<Item>, p: PaneId)
    ensures Seen(a + b, p) == Seen(a, p) + Seen(b, p)
  {
    if a == [] {
      assert a + b == b;
    } else {
      assert (a + b)[1..] == a[1..] + b;
      SeenConcat(a[1..], b, p);
    }
  }

  lemma SeenOne(item: Item, p: PaneId)
    ensures Seen([item], p) == if item.Message? && item.pane == p then Unescape(item.payload) else []
  {
    assert Seen([item], p) == (if item.Message? && item.pane == p then Unescape(item.payload) else []) + Seen([], p);
  }

  /** The lines among the items, in order. */
  function LinesOut(out: seq<Item>): seq<Line> {
    if out == [] then [] else (if out[0].Wrote? then [out[0].line] else []) + LinesOut(out[1..])
  }

  lemma {:induction false} LinesOutMore(out: seq<Item>, item: Item)
    ensures LinesOut(out + [item]) == LinesOut(out) + if item.Wrote? then [item.line] else []
  {
    var more := out + [item];
    var last := if item.Wrote? then [item.line] else [];
    if out == [] {
      assert more[1..] == [];
      assert LinesOut(more) == last + [];
    } else {
      assert more[1..] == out[1..] + [item];
      LinesOutMore(out[1..], item);
      var first := if out[0].Wrote? then [out[0].line] else [];
      assert LinesOut(more) == first + (LinesOut(out[1..]) + last);
      assert LinesOut(out) == first + LinesOut(out[1..]);
    }
  }

  // ---- The fixed parts of the messages ----

  const OUTPUT: seq<Byte> := [0x25, 0x6f, 0x75, 0x74, 0x70, 0x75, 0x74, 0x20, 0x25]
  const EXTENDED_OUTPUT: seq<Byte> := [0x25, 0x65, 0x78, 0x74, 0x65, 0x6e, 0x64, 0x65, 0x64, 0x2d] + OUTPUT[1..]

  /** "%output %P " or, for a client with pause-after, "%extended-output %P AGE : ". */
  function Head(p: PaneId, extended: bool, age: nat): seq<Byte> {
    if extended then EXTENDED_OUTPUT + Decimal(p) + [0x20] + Decimal(age) + [0x20, 0x3a, 0x20]
    else OUTPUT + Decimal(p) + [0x20]
  }
}
