/**
 Boolean search expressions (ed2k/search.go): a recursive descent over the buffer with a
 depth limit and a leaf counter shared by the whole tree.
 */
module Search {
  import opened Bytes
  import opened Codec
  import opened Buffers

  const MAX_DEPTH: nat := 24
  const MAX_LEAVES: nat := 64
  const TERM_TAG: nat := 0xff

  datatype Kind = And | Or | AndNot

  /** A parsed expression. A term that spells a hash or a related search is `Special`. */
  datatype Expr =
    | TextLeaf(text: seq<Byte>)
    | StringLeaf(typ: nat, text: seq<Byte>)
    | Special(text: seq<Byte>)
    | NumberLeaf(wide: bool, typ: nat, n: nat)
    | Node(kind: Kind, left: Expr, right: Expr)

  /** What a parse did: its result, the leaf counter it left behind, and how many calls it took. */
  datatype Outcome =
    | Refused(leaves: nat, calls: nat)
    | Parsed(expr: Expr, rest: seq<Byte>, leaves: nat, calls: nat)

  function KindOf(op: Byte): Kind { if op == 1 then Or else if op == 2 then AndNot else And }

  /** A leaf's tag name: its length, and its one byte when it has just one. */
  function ReadTagName(s: seq<Byte>): Codec.Parsed<(nat, Byte)> {
    var l := ReadNumber(s, 2);
    if l.Bad? || |l.rest| < l.value then Bad
    else Good((l.value, if l.value == 1 then l.rest[0] else 0), l.rest[l.value..])
  }

  /** The wire bytes of a one-byte name read as one little-endian number; other lengths give no known type. */
  function StringType(length: nat, code: nat): nat { length + code * 0x1_0000 }

  function NumericType(op: nat, length: nat, code: nat): nat { op + length * 0x100 + code * 0x1_000000 }

  function ReadNumericType(s: seq<Byte>): Codec.Parsed<nat> {
    if s == [] then Bad
    else
      var name := ReadTagName(s[1..]);
      if name.Bad? then Bad else Good(NumericType(s[0], name.value.0, name.value.1), name.rest)
  }

  function Term(special: seq<Byte> -> bool, typ: nat, text: seq<Byte>): Expr {
    if typ == TERM_TAG && special(text) then Special(text) else StringLeaf(typ, text)
  }

  /** The leaf after its token. */
  function ReadLeaf(special: seq<Byte> -> bool, s: seq<Byte>, token: Byte): Codec.Parsed<Expr> {
    if token == 0x01 then
      var t := ReadString(s);
      if t.Bad? then Bad else Good(if special(t.value) then Special(t.value) else TextLeaf(t.value), t.rest)
    else if token == TYPE_STRING then
      var t := ReadString(s);
      if t.Bad? then Bad
      else
        var name := ReadTagName(t.rest);
        if name.Bad? then Bad else Good(Term(special, StringType(name.value.0, name.value.1), t.value), name.rest)
    else if token == TYPE_UINT32 then ReadNumeric(s, 4)
    else if token == 0x08 then ReadNumeric(s, 8)
    else Bad
  }

  function ReadNumeric(s: seq<Byte>, width: nat): Codec.Parsed<Expr> {
    var v := ReadNumber(s, width);
    if v.Bad? then Bad
    else
      var typ := ReadNumericType(v.rest);
      if typ.Bad? then Bad else Good(NumberLeaf(width == 8, typ.value, v.value), typ.rest)
  }

  function Parse(special: seq<Byte> -> bool, s: seq<Byte>, depth: nat, leaves: nat): Outcome
    decreases MAX_DEPTH - depth
  {
    if depth >= MAX_DEPTH || s == [] then Refused(leaves, 1)
    else if s[0] != 0 then
      if leaves + 1 > MAX_LEAVES then Refused(leaves + 1, 1)
      else
        var leaf := ReadLeaf(special, s[1..], s[0]);
        if leaf.Bad? then Refused(leaves + 1, 1) else Parsed(leaf.value, leaf.rest, leaves + 1, 1)
    else if |s| < 2 then Refused(leaves, 1)
    else
      var l := Parse(special, s[2..], depth + 1, leaves);
      if l.Refused? then Refused(l.leaves, 1 + l.calls)
      else
        var r := Parse(special, l.rest, depth + 1, l.leaves);
        if r.Refused? then Refused(r.leaves, 1 + l.calls + r.calls)
        else Parsed(Node(KindOf(s[1]), l.expr, r.expr), r.rest, r.leaves, 1 + l.calls + r.calls)
  }

  /** A node: both its sides, from behind its operator. */
  function NodeOf(special: seq<Byte> -> bool, s: seq<Byte>, depth: nat, leaves: nat, op: Byte): Outcome {
    var l := Parse(special, s, depth + 1, leaves);
    if l.Refused? then Refused(l.leaves, 1 + l.calls)
    else
      var r := Parse(special, l.rest, depth + 1, l.leaves);
      if r.Refused? then Refused(r.leaves, 1 + l.calls + r.calls)
      else Parsed(Node(KindOf(op), l.expr, r.expr), r.rest, r.leaves, 1 + l.calls + r.calls)
  }

  lemma UnfoldNode(special: seq<Byte> -> bool, s: seq<Byte>, depth: nat, leaves: nat)
    requires depth < MAX_DEPTH && |s| >= 2 && s[0] == 0
    ensures Parse(special, s, depth, leaves) == NodeOf(special, s[2..], depth, leaves, s[1])
  {
    hide ReadLeaf;
  }

  function Levels(e: Expr): nat {
    if e.Node? then 1 + (if Levels(e.left) < Levels(e.right) then Levels(e.right) else Levels(e.left)) else 1
  }

  function Leaves(e: Expr): (n: nat)
    ensures n > 0
  {
    if e.Node? then Leaves(e.left) + Leaves(e.right) else 1
  }

  /** Every accepted tree is within both limits, whatever the buffer; a refusal costs a bounded number of calls. */
  lemma {:induction false} ParseBounded(special: seq<Byte> -> bool, s: seq<Byte>, depth: nat, leaves: nat)
    requires depth <= MAX_DEPTH && leaves <= MAX_LEAVES
    ensures var r := Parse(special, s, depth, leaves);
            match r
            case Parsed(e, rest, n, calls) =>
              && depth + Levels(e) <= MAX_DEPTH && n == leaves + Leaves(e) <= MAX_LEAVES
              && calls == 2 * Leaves(e) - 1
            case Refused(n, calls) =>
              leaves <= n <= MAX_LEAVES + 1 && calls <= 2 * (n - leaves) + (MAX_DEPTH - depth) + 1
    decreases MAX_DEPTH - depth
  {
    hide ReadLeaf, KindOf, NumericType, StringType;
    if depth < MAX_DEPTH && s != [] {
      if s[0] != 0 {
        LeafIsLeaf(special, s[1..], s[0]);
      } else if |s| >= 2 {
        ParseBounded(special, s[2..], depth + 1, leaves);
        var l := Parse(special, s[2..], depth + 1, leaves);
        if l.Parsed? { ParseBounded(special, l.rest, depth + 1, l.leaves); }
      }
    }
  }

  lemma LeafIsLeaf(special: seq<Byte> -> bool, s: seq<Byte>, token: Byte)
    ensures var r := ReadLeaf(special, s, token); r.Good? ==> !r.value.Node?
  {
    hide Number;
  }

  /** A search of any length takes at most 155 calls. */
  lemma CallsBounded(special: seq<Byte> -> bool, s: seq<Byte>)
    ensures Parse(special, s, 0, 0).calls <= 2 * (MAX_LEAVES + 1) + MAX_DEPTH + 1
  {
    hide Parse, Levels, Leaves;
    ParseBounded(special, s, 0, 0);
  }

  // ---------------------------------------------------------------- the round trip

  /** An expression as a client writes it, tag names in full. */
  datatype Query =
    | Word(text: seq<Byte>)
    | Tagged(text: seq<Byte>, name: seq<Byte>)
    | Numeric(wide: bool, n: nat, op: Byte, name: seq<Byte>)
    | Both(kind: Kind, left: Query, right: Query)

  function PrintName(name: seq<Byte>): seq<Byte> { LittleEndian(|name|, 2) + name }

  function Print(q: Query): seq<Byte> {
    match q
    case Word(text) => [0x01] + PrintString(text)
    case Tagged(text, name) => [TYPE_STRING] + (PrintString(text) + PrintName(name))
    case Numeric(wide, n, op, name) =>
      [if wide then 0x08 else TYPE_UINT32] + (LittleEndian(n, if wide then 8 else 4) + ([op] + PrintName(name)))
    case Both(kind, l, r) =>
      [0x00, match kind case And => 0x00 case Or => 0x01 case AndNot => 0x02] + (Print(l) + Print(r))
  }

  /** The bytes of a name a type is made of: its length, and itself when it is one byte. */
  function TypeBytes(name: seq<Byte>): seq<Byte> { if |name| == 1 then [0x01, 0x00, name[0]] else LittleEndian(|name|, 2) }

  /** The expression the query stands for; a type is its wire bytes read as one little-endian number. */
  function Meaning(special: seq<Byte> -> bool, q: Query): Expr {
    match q
    case Word(text) => if special(text) then Special(text) else TextLeaf(text)
    case Tagged(text, name) =>
      var typ := Number(TypeBytes(name));
      if typ == 0xff && special(text) then Special(text) else StringLeaf(typ, text)
    case Numeric(wide, n, op, name) => NumberLeaf(wide, Number([op] + TypeBytes(name)), n)
    case Both(kind, l, r) => Node(kind, Meaning(special, l), Meaning(special, r))
  }

  ghost predicate Writable(q: Query) {
    match q
    case Word(text) => |text| < U16
    case Tagged(text, name) => |text| < U16 && |name| < U16
    case Numeric(wide, n, op, name) => n < (if wide then U64 else U32) && |name| < U16
    case Both(_, l, r) => Writable(l) && Writable(r)
  }

  function CodeOf(name: seq<Byte>): Byte { if |name| == 1 then name[0] else 0 }

  /** The types are those numbers. */
  lemma TypeNumbers(op: Byte, name: seq<Byte>)
    requires |name| < U16
    ensures Number(TypeBytes(name)) == StringType(|name|, CodeOf(name))
    ensures Number([op] + TypeBytes(name)) == NumericType(op, |name|, CodeOf(name))
  {
    var b := TypeBytes(name);
    assert ([op] + b)[1..] == b;
    if |name| == 1 {
      assert Number(b) == 1 + 256 * Number(b[1..]) && Number(b[1..]) == 0 + 256 * Number(b[1..][1..]);
      assert b[1..][1..] == [name[0]] && Number([name[0]]) == name[0] + 256 * Number([name[0]][1..]);
    } else {
      Powers();
      NumberOfLittleEndian(|name|, 2);
    }
  }

  lemma ReadPrintedName(name: seq<Byte>, rest: seq<Byte>)
    requires |name| < U16
    ensures ReadTagName(PrintName(name) + rest) == Good((|name|, CodeOf(name)), rest)
  {
    hide LittleEndian, Number;
    Powers();
    assert PrintName(name) + rest == LittleEndian(|name|, 2) + (name + rest);
    ReadPrintedNumber(|name|, 2, name + rest);
    assert (name + rest)[|name|..] == rest;
  }

  lemma ReadPrintedLeaf(special: seq<Byte> -> bool, q: Query, rest: seq<Byte>)
    requires Writable(q) && !q.Both?
    ensures var s := Print(q) + rest; s != [] && s[0] != 0 && ReadLeaf(special, s[1..], s[0]) == Good(Meaning(special, q), rest)
    ensures !Meaning(special, q).Node?
  {
    hide LittleEndian, Number, ReadString, PrintString, PrintName, ReadTagName;
    var s := Print(q) + rest;
    Powers();
    match q
    case Word(text) =>
      assert s[1..] == PrintString(text) + rest;
      ReadPrintedString(text, rest);
    case Tagged(text, name) =>
      assert s[1..] == PrintString(text) + (PrintName(name) + rest);
      ReadPrintedString(text, PrintName(name) + rest);
      ReadPrintedName(name, rest);
      TypeNumbers(0, name);
    case Numeric(wide, n, op, name) =>
      var w := if wide then 8 else 4;
      assert s[1..] == LittleEndian(n, w) + ([op] + (PrintName(name) + rest));
      ReadPrintedNumber(n, w, [op] + (PrintName(name) + rest));
      assert ([op] + (PrintName(name) + rest))[1..] == PrintName(name) + rest;
      ReadPrintedName(name, rest);
      TypeNumbers(op, name);
  }

  lemma ParseLeaf(special: seq<Byte> -> bool, q: Query, rest: seq<Byte>, depth: nat, leaves: nat)
    requires Writable(q) && !q.Both? && depth < MAX_DEPTH && leaves < MAX_LEAVES
    ensures Parse(special, Print(q) + rest, depth, leaves) == Parsed(Meaning(special, q), rest, leaves + 1, 1)
    ensures !Meaning(special, q).Node?
  {
    hide ReadLeaf, Meaning, Print;
    ReadPrintedLeaf(special, q, rest);
  }

  /** Every tree within the limits parses back from its wire form to itself, consuming exactly its bytes. */
  lemma {:induction false} RoundTrip(special: seq<Byte> -> bool, q: Query, rest: seq<Byte>, depth: nat, leaves: nat)
    requires Writable(q)
    requires depth + Levels(Meaning(special, q)) <= MAX_DEPTH && leaves + Leaves(Meaning(special, q)) <= MAX_LEAVES
    ensures var e := Meaning(special, q);
            Parse(special, Print(q) + rest, depth, leaves) == Parsed(e, rest, leaves + Leaves(e), 2 * Leaves(e) - 1)
    decreases q
  {
    hide Parse, Print, Writable;
    var e := Meaning(special, q);
    if q.Both? {
      WritableParts(q);
      RoundTrip(special, q.left, Print(q.right) + rest, depth + 1, leaves);
      RoundTrip(special, q.right, rest, depth + 1, leaves + Leaves(e.left));
      ParseBoth(special, q, rest, depth, leaves);
    } else {
      ParseLeaf(special, q, rest, depth, leaves);
    }
  }

  lemma WritableParts(q: Query)
    requires Writable(q) && q.Both?
    ensures Writable(q.left) && Writable(q.right)
  {
  }

  /** A node from its two sides. */
  lemma ParseBoth(special: seq<Byte> -> bool, q: Query, rest: seq<Byte>, depth: nat, leaves: nat)
    requires q.Both? && depth < MAX_DEPTH
    ensures var l := Parse(special, Print(q.left) + (Print(q.right) + rest), depth + 1, leaves);
            l.Parsed? && l.rest == Print(q.right) + rest ==>
              var r := Parse(special, l.rest, depth + 1, l.leaves);
              r.Parsed? ==> Parse(special, Print(q) + rest, depth, leaves) ==
                            Parsed(Node(q.kind, l.expr, r.expr), r.rest, r.leaves, 1 + l.calls + r.calls)
  {
    var op := match q.kind case And => 0x00 case Or => 0x01 case AndNot => 0x02;
    var left, right := Print(q.left), Print(q.right);
    assert Print(q) == [0x00, op] + (left + right);
    hide Parse, Print;
    var s := Print(q) + rest;
    assert s == [0x00, op] + (left + (right + rest)) && s[2..] == left + (right + rest);
    UnfoldNode(special, s, depth, leaves);
  }

  /** An operator that is none of the three is And. */
  lemma OtherOperatorIsAnd(special: seq<Byte> -> bool, op: Byte, body: seq<Byte>, depth: nat, leaves: nat)
    requires op > 0x02
    ensures Parse(special, [0x00, op] + body, depth, leaves) == Parse(special, [0x00, 0x00] + body, depth, leaves)
  {
    var s, t := [0x00, op] + body, [0x00, 0x00] + body;
    if depth < MAX_DEPTH {
      UnfoldNode(special, s, depth, leaves);
      UnfoldNode(special, t, depth, leaves);
      assert s[2..] == body == t[2..];
    }
  }

  /** A token that is none of the five is refused. */
  lemma OtherTokenRefused(special: seq<Byte> -> bool, s: seq<Byte>, depth: nat, leaves: nat)
    requires s != [] && s[0] != 0x00 && s[0] != 0x01 && s[0] != 0x02 && s[0] != 0x03 && s[0] != 0x08
    ensures Parse(special, s, depth, leaves).Refused?
  {
  }

  // ---------------------------------------------------------------- over the buffer

  method GetTagName(b: Buffer) returns (r: Option<(nat, Byte)>)
    requires b.Valid()
    modifies b`pointer
    ensures b.Valid() && b.Follows(ReadTagName(old(b.Rest())), r)
  {
    hide Number;
    var l := b.GetNumber(2);
    if l.None? {
      return None;
    }
    var name := b.GetBytes(l.value);
    if name.None? {
      return None;
    }
    r := Some((l.value, if l.value == 1 then name.value[0] else 0));
  }

  method GetNumericType(b: Buffer) returns (r: Option<nat>)
    requires b.Valid()
    modifies b`pointer
    ensures b.Valid() && b.Follows(ReadNumericType(old(b.Rest())), r)
  {
    hide ReadTagName;
    var op := b.GetByte();
    if op.None? {
      return None;
    }
    var name := GetTagName(b);
    if name.None? {
      return None;
    }
    r := Some(NumericType(op.value, name.value.0, name.value.1));
  }

  method GetNumeric(b: Buffer, width: nat) returns (r: Option<Expr>)
    requires b.Valid()
    modifies b`pointer
    ensures b.Valid() && b.Follows(ReadNumeric(old(b.Rest()), width), r)
  {
    hide Number, ReadNumericType;
    var v := b.GetNumber(width);
    if v.None? {
      return None;
    }
    var typ := GetNumericType(b);
    if typ.None? {
      return None;
    }
    r := Some(NumberLeaf(width == 8, typ.value, v.value));
  }

  method GetLeaf(special: seq<Byte> -> bool, b: Buffer, token: Byte) returns (r: Option<Expr>)
    requires b.Valid()
    modifies b`pointer
    ensures b.Valid() && b.Follows(ReadLeaf(special, old(b.Rest()), token), r)
  {
    hide ReadNumeric, ReadString, ReadTagName;
    if token == 0x01 {
      var t := b.GetString();
      if t.None? {
        return None;
      }
      r := Some(if special(t.value) then Special(t.value) else TextLeaf(t.value));
    } else if token == TYPE_STRING {
      var t := b.GetString();
      if t.None? {
        return None;
      }
      var name := GetTagName(b);
      if name.None? {
        return None;
      }
      r := Some(Term(special, StringType(name.value.0, name.value.1), t.value));
    } else if token == TYPE_UINT32 {
      r := GetNumeric(b, 4);
    } else if token == 0x08 {
      r := GetNumeric(b, 8);
    } else {
      r := None;
    }
  }

  /** What the method returned, and where it left the cursor. */
  ghost predicate Gives(b: Buffer, o: Outcome, r: Option<Expr>, counted: nat, calls: nat)
    requires b.Valid()
    reads b, b.data
  {
    match o
    case Refused(n, c) => r.None? && counted == n && calls == c
    case Parsed(e, rest, n, c) => r == Some(e) && b.Rest() == rest && counted == n && calls == c
  }

  /** parseSearchExpr, the leaf counter passed in and out. */
  method ParseSearchExpr(special: seq<Byte> -> bool, b: Buffer, depth: nat, leaves: nat)
    returns (r: Option<Expr>, counted: nat, ghost calls: nat)
    requires b.Valid()
    modifies b`pointer
    ensures b.Valid() && Gives(b, Parse(special, old(b.Rest()), depth, leaves), r, counted, calls)
    decreases MAX_DEPTH - depth, 1
  {
    hide ReadLeaf;
    ghost var s0 := b.Rest();
    counted, calls := leaves, 1;
    if depth >= MAX_DEPTH {
      return None, counted, calls;
    }
    var token := b.GetByte();
    if token.None? {
      return None, counted, calls;
    }
    if token.value != 0 {
      counted := counted + 1;
      if counted > MAX_LEAVES {
        return None, counted, calls;
      }
      r := GetLeaf(special, b, token.value);
      return;
    }
    var op := b.GetByte();
    if op.None? {
      return None, counted, calls;
    }
    assert s0[1..][1..] == s0[2..];
    assert |s0| >= 2 && s0[0] == 0 && s0[1] == op.value && b.Rest() == s0[2..];
    hide Parse;
    UnfoldNode(special, s0, depth, leaves);
    r, counted, calls := ParseNode(special, b, depth, leaves, op.value);
  }

  method ParseNode(special: seq<Byte> -> bool, b: Buffer, depth: nat, leaves: nat, op: Byte)
    returns (r: Option<Expr>, counted: nat, ghost calls: nat)
    requires b.Valid() && depth < MAX_DEPTH
    modifies b`pointer
    ensures b.Valid() && Gives(b, NodeOf(special, old(b.Rest()), depth, leaves, op), r, counted, calls)
    decreases MAX_DEPTH - depth, 0
  {
    hide Parse;
    ghost var c;
    var left;
    left, counted, c := ParseSearchExpr(special, b, depth + 1, leaves);
    calls := 1 + c;
    if left.None? {
      return None, counted, calls;
    }
    var right;
    right, counted, c := ParseSearchExpr(special, b, depth + 1, counted);
    calls := calls + c;
    if right.None? {
      return None, counted, calls;
    }
    r := Some(Node(KindOf(op), left.value, right.value));
  }
}
