/** The directory tree of 15440-p1 on the wire: the printer of server.c and the
    parser of mylib.c. */
module DirTree {
  import opened Bytes
  import opened Wire

  datatype Tree = Tree(name: Content, subdirs: seq<Tree>)

  /** Names without NUL, and lengths that an int can hold. */
  predicate Fits(t: Tree) {
    && NulFree(t.name) && IsInt(|t.name| + 1) && IsInt(|t.subdirs|)
    && forall i :: 0 <= i < |t.subdirs| ==> Fits(t.subdirs[i])
  }

  /** A node's own part: the length of its name with the NUL, the name, the
      number of subdirectories. */
  function Head(name: Content, subdirs: nat): Content {
    PutInt(|name| + 1) + name + [0] + PutInt(subdirs)
  }

  function Encode(t: Tree): Content {
    Head(t.name, |t.subdirs|) + EncodeAll(t.subdirs)
  }

  function EncodeAll(ts: seq<Tree>): Content {
    if ts == [] then [] else Encode(ts[0]) + EncodeAll(ts[1..])
  }

  /** The names of a tree in preorder. */
  function Names(t: Tree): seq<Content> {
    [t.name] + NamesOfAll(t.subdirs)
  }

  function NamesOfAll(ts: seq<Tree>): seq<Content> {
    if ts == [] then [] else Names(ts[0]) + NamesOfAll(ts[1..])
  }

  function TotalLength(names: seq<Content>): nat {
    if names == [] then 0 else 9 + |names[0]| + TotalLength(names[1..])
  }

  lemma {:induction false} TotalLengthOfTwo(a: seq<Content>, b: seq<Content>)
    ensures TotalLength(a + b) == TotalLength(a) + TotalLength(b)
  {
    if a == [] {
      assert a + b == b;
    } else {
      assert (a + b)[1..] == a[1..] + b;
      TotalLengthOfTwo(a[1..], b);
    }
  }

  /** Every node takes nine bytes and its name. */
  lemma {:induction false} EncodedLength(t: Tree)
    ensures |Encode(t)| == TotalLength(Names(t))
  {
    EncodedLengthOfAll(t.subdirs);
    TotalLengthOfTwo([t.name], NamesOfAll(t.subdirs));
    assert TotalLength([t.name]) == 9 + |t.name|;
  }

  lemma {:induction false} EncodedLengthOfAll(ts: seq<Tree>)
    ensures |EncodeAll(ts)| == TotalLength(NamesOfAll(ts))
  {
    if ts != [] {
      EncodedLength(ts[0]);
      EncodedLengthOfAll(ts[1..]);
      TotalLengthOfTwo(Names(ts[0]), NamesOfAll(ts[1..]));
    }
  }

  // ---- parsing

  datatype Parsed = Bad | At(tree: Tree, offset: nat)
  datatype ParsedAll = BadAll | AllAt(trees: seq<Tree>, offset: nat)

  /** deserialize_tree at an offset; Bad where it would leave the buffer or find
      no end of a name. */
  function Decode(s: Content, offset: nat): (r: Parsed)
    requires offset <= |s|
    ensures r.At? ==> offset + 8 < r.offset <= |s|
    decreases |s| - offset, 0
  {
    if offset + INT > |s| then Bad
    else
      var nameLength := GetInt(Slice(s, offset, INT));
      if nameLength < 0 || offset + INT + nameLength + INT > |s| then Bad
      else
        var name := Slice(s, offset + INT, nameLength);
        var count := GetInt(Slice(s, offset + INT + nameLength, INT));
        if 0 !in name then Bad
        else
          match DecodeAll(s, offset + INT + nameLength + INT, if count > 0 then count else 0)
          case BadAll => Bad
          case AllAt(trees, end) => At(Tree(CString(name), trees), end)
  }

  function DecodeAll(s: Content, offset: nat, count: nat): (r: ParsedAll)
    requires offset <= |s|
    ensures r.AllAt? ==> offset <= r.offset <= |s| && |r.trees| == count
    decreases |s| - offset, 1
  {
    if count == 0 then AllAt([], offset)
    else
      match Decode(s, offset)
      case Bad => BadAll
      case At(first, next) =>
        match DecodeAll(s, next, count - 1)
        case BadAll => BadAll
        case AllAt(rest, end) => AllAt([first] + rest, end)
  }

  // A node's own part, read back.
  lemma HeadStands(s: Content, offset: nat, name: Content, subdirs: nat)
    requires Stands(s, offset, Head(name, subdirs))
    requires NulFree(name) && IsInt(|name| + 1) && IsInt(subdirs)
    ensures GetInt(Slice(s, offset, INT)) == |name| + 1
    ensures var mid := Slice(s, offset + INT, |name| + 1); 0 in mid && CString(mid) == name
    ensures GetInt(Slice(s, offset + INT + |name| + 1, INT)) == subdirs
  {
    hide LittleEndian;
    var a, b, c := PutInt(|name| + 1), name + [0], PutInt(subdirs);
    assert Head(name, subdirs) == a + (b + c);
    StandsSplit(s, offset, a, b + c);
    StandsSplit(s, offset + INT, b, c);
    IntRoundTrip(|name| + 1);
    IntRoundTrip(subdirs);
    CStringStops(name, []);
    assert name + [0] + [] == b;
    assert b[|name|] == 0;
  }

  lemma DecodeHead(s: Content, offset: nat, name: Content, subdirs: nat)
    requires Stands(s, offset, Head(name, subdirs))
    requires NulFree(name) && IsInt(|name| + 1) && IsInt(subdirs)
    ensures Decode(s, offset) ==
      match DecodeAll(s, offset + |Head(name, subdirs)|, subdirs)
      case BadAll => Bad
      case AllAt(trees, end) => At(Tree(name, trees), end)
  {
    HeadStands(s, offset, name, subdirs);
    hide LittleEndian;
    hide GetInt;
    hide CString;
    hide Slice;
    hide DecodeAll;
    hide Stands;
    hide NulFree;
  }

  lemma {:induction false} DecodeStanding(s: Content, offset: nat, t: Tree)
    requires Fits(t) && Stands(s, offset, Encode(t))
    ensures Decode(s, offset) == At(t, offset + |Encode(t)|)
    decreases t, 1
  {
    hide Head;
    hide Decode;
    hide DecodeAll;
    hide EncodeAll;
    StandsSplit(s, offset, Head(t.name, |t.subdirs|), EncodeAll(t.subdirs));
    DecodeHead(s, offset, t.name, |t.subdirs|);
    DecodeAllStanding(s, offset + |Head(t.name, |t.subdirs|)|, t.subdirs);
  }

  lemma {:induction false} DecodeAllStanding(s: Content, offset: nat, ts: seq<Tree>)
    requires forall i :: 0 <= i < |ts| ==> Fits(ts[i])
    requires Stands(s, offset, EncodeAll(ts))
    ensures DecodeAll(s, offset, |ts|) == AllAt(ts, offset + |EncodeAll(ts)|)
    decreases ts, 0
  {
    hide Fits;
    hide Encode;
    hide Decode;
    if ts != [] {
      StandsSplit(s, offset, Encode(ts[0]), EncodeAll(ts[1..]));
      DecodeStanding(s, offset, ts[0]);
      DecodeAllStanding(s, offset + |Encode(ts[0])|, ts[1..]);
      assert [ts[0]] + ts[1..] == ts;
    }
  }

  /** What the parser makes of any node: its length counts the bytes of the name,
      which end at the first NUL, whatever follows it; a count that is not positive
      means no subdirectories. */
  lemma DecodeAnyNode(s: Content, offset: nat, block: Content, count: int)
    requires Stands(s, offset, PutInt(|block|) + (block + PutInt(count)))
    requires IsInt(|block|) && IsInt(count) && 0 in block
    ensures Decode(s, offset) ==
      match DecodeAll(s, offset + |block| + 8, if count > 0 then count else 0)
      case BadAll => Bad
      case AllAt(trees, end) => At(Tree(CString(block), trees), end)
  {
    hide LittleEndian;
    hide GetInt;
    hide CString;
    hide DecodeAll;
    StandsSplit(s, offset, PutInt(|block|), block + PutInt(count));
    StandsSplit(s, offset + INT, block, PutInt(count));
    IntRoundTrip(|block|);
    IntRoundTrip(count);
  }

  /** There is no room for a name of n bytes and the count, or it does not end. */
  predicate NoNameAt(s: Content, offset: nat, n: int) {
    n < 0 || offset + n + 8 > |s| || 0 !in s[offset + 4..offset + 4 + n]
  }

  /** Where the parser gives up on a node: no room for the length, a negative length,
      no room for the name and the count, or a name without an end. */
  lemma DecodeGivesUp(s: Content, offset: nat, n: int)
    requires offset <= |s|
    requires offset + 4 > |s| || (IsInt(n) && Stands(s, offset, PutInt(n)) && NoNameAt(s, offset, n))
    ensures Decode(s, offset).Bad?
  {
    hide LittleEndian;
    hide GetInt;
    hide CString;
    hide DecodeAll;
    IntRoundTrip(n);
  }

  /** The round trip: wherever a printed tree stands, the parser returns the tree
      and leaves the offset behind it. */
  lemma RoundTrip(prefix: Content, t: Tree, suffix: Content)
    requires Fits(t)
    ensures Decode(prefix + Encode(t) + suffix, |prefix|) == At(t, |prefix| + |Encode(t)|)
  {
    DecodeStanding(prefix + Encode(t) + suffix, |prefix|, t);
  }

  /** The printed form is prefix-free. */
  lemma PrefixFree(t: Tree, u: Tree)
    requires Fits(t) && Fits(u) && Encode(t) <= Encode(u)
    ensures t == u
  {
    DecodeStanding(Encode(u), 0, t);
    DecodeStanding(Encode(u), 0, u);
  }

  // ---- the printer, growing its buffer in place

  /** A heap node of dirtree.h. */
  class Node {
    var name: Content
    var subdirs: seq<Node>
    ghost var repr: set<Node>

    constructor (name: Content)
      ensures this.name == name && subdirs == [] && repr == {this}
    {
      this.name, subdirs, repr := name, [], {this};
    }

    /** The nodes from here on hold the tree t. */
    ghost predicate Holds(t: Tree)
      reads this, repr
      decreases t
    {
      && this in repr && name == t.name && |subdirs| == |t.subdirs|
      && forall i :: 0 <= i < |subdirs| ==>
        && subdirs[i] in repr && subdirs[i].repr <= repr && this !in subdirs[i].repr
        && subdirs[i].Holds(t.subdirs[i])
    }

    lemma HoldsNode(t: Tree)
      requires Holds(t)
      ensures name == t.name && |subdirs| == |t.subdirs|
    {
    }

    lemma HoldsChild(t: Tree, i: nat)
      requires Holds(t) && i < |subdirs|
      ensures |subdirs| == |t.subdirs| && subdirs[i].Holds(t.subdirs[i])
    {
    }

    method Add(child: Node, ghost t: Tree, ghost sub: Tree)
      requires Holds(t) && child.Holds(sub) && this !in child.repr
      modifies this
      ensures Holds(Tree(t.name, t.subdirs + [sub]))
      ensures name == old(name) && repr == old(repr) + child.repr
    {
      ghost var old_subdirs := subdirs;
      subdirs, repr := subdirs + [child], repr + child.repr;
      forall i | 0 <= i < |old_subdirs| ensures old_subdirs[i].Holds(t.subdirs[i]) {
        assert old(old_subdirs[i].Holds(t.subdirs[i]));
      }
    }
  }

  /** serialize_dirtree: the buffer is extended by the printed tree. */
  method SerializeDirtree(root: Node, b: Buffer, ghost t: Tree)
    requires b.Valid() && root.Holds(t)
    modifies b, b.info
    ensures b.Valid() && fresh(b.info)
    ensures b.info[..] == old(b.info[..]) + Encode(t)
    ensures root.Holds(t)
    decreases t
  {
    ghost var before := b.info[..];
    AddNode(b, root.name, |root.subdirs|);
    root.HoldsNode(t);
    PrintedNone(before, t);
    hide Head;
    hide Printed;
    hide Encode;
    hide Node.Holds;
    var i := 0;
    while i < |root.subdirs|
      invariant i <= |root.subdirs| == |t.subdirs|
      invariant b.Valid() && fresh(b.info) && root.Holds(t)
      invariant b.info[..] == Printed(before, t, i)
    {
      root.HoldsChild(t, i);
      SerializeDirtree(root.subdirs[i], b, t.subdirs[i]);
      PrintedNext(before, t, i);
      i := i + 1;
    }
    PrintedAll(before, t);
  }

  /** A node's own part, added at the end. */
  method AddNode(b: Buffer, name: Content, subdirs: nat)
    requires b.Valid()
    modifies b
    ensures b.Valid() && fresh(b.info)
    ensures b.info[..] == old(b.info[..]) + Head(name, subdirs)
  {
    hide LittleEndian;
    var nameLength, offset := |name| + 1, b.size;
    b.Grow(INT + nameLength + INT);
    b.CopyIn(offset, PutInt(nameLength));
    b.CopyIn(offset + INT, name + [0]);
    b.CopyIn(offset + INT + nameLength, PutInt(subdirs));
  }

  lemma {:induction false} EncodeAllOfTwo(ts: seq<Tree>, us: seq<Tree>)
    ensures EncodeAll(ts + us) == EncodeAll(ts) + EncodeAll(us)
  {
    hide Encode;
    if ts == [] {
      assert ts + us == us;
    } else {
      assert (ts + us)[1..] == ts[1..] + us;
      EncodeAllOfTwo(ts[1..], us);
    }
  }

  /** The buffer after a node's own part and i of its subdirectories. */
  ghost function Printed(before: Content, t: Tree, i: nat): Content
    requires i <= |t.subdirs|
  {
    before + Head(t.name, |t.subdirs|) + EncodeAll(t.subdirs[..i])
  }

  lemma PrintedNone(before: Content, t: Tree)
    ensures Printed(before, t, 0) == before + Head(t.name, |t.subdirs|)
  {
    hide Head;
    assert EncodeAll(t.subdirs[..0]) == [];
  }

  lemma PrintedNext(before: Content, t: Tree, i: nat)
    requires i < |t.subdirs|
    ensures Printed(before, t, i + 1) == Printed(before, t, i) + Encode(t.subdirs[i])
  {
    hide Head;
    var ts, child := t.subdirs, t.subdirs[i];
    assert ts[..i + 1] == ts[..i] + [child];
    EncodeAllOfTwo(ts[..i], [child]);
    assert [child][1..] == [] && EncodeAll([child]) == Encode(child) + EncodeAll([child][1..]);
    hide Encode;
    assert EncodeAll(ts[..i + 1]) == EncodeAll(ts[..i]) + Encode(child);
  }

  lemma PrintedAll(before: Content, t: Tree)
    ensures Printed(before, t, |t.subdirs|) == before + Encode(t)
  {
    hide Head;
    assert t.subdirs[..|t.subdirs|] == t.subdirs;
  }

  // ---- the parser, advancing a shared offset

  class Cursor {
    var offset: nat

    constructor (offset: nat)
      ensures this.offset == offset
    {
      this.offset := offset;
    }
  }

  /** deserialize_tree: new nodes for the tree parsed, and the offset behind it. */
  method DeserializeTree(serialized: Content, cursor: Cursor) returns (node: Node, ghost t: Tree)
    requires cursor.offset <= |serialized|
    requires Decode(serialized, cursor.offset).At?
    modifies cursor
    ensures Decode(serialized, old(cursor.offset)) == At(t, cursor.offset)
    ensures node.Holds(t) && fresh(node.repr)
    decreases |serialized| - cursor.offset
  {
    hide Decode;
    hide DecodeAll;
    var name, count := ReadNode(serialized, cursor);
    node := new Node(name);
    t := Tree(node.name, []);
    var i := 0;
    ghost var all := DecodeAll(serialized, cursor.offset, count);
    assert all == Rest([], all);
    hide Rest;
    assert node.Holds(t);
    hide Node.Holds;
    while i < count
      invariant i <= count && old(cursor.offset) < cursor.offset <= |serialized|
      invariant fresh(node.repr) && node.Holds(t) && t.name == name
      invariant all.AllAt? && all == Rest(t.subdirs, DecodeAll(serialized, cursor.offset, count - i))
    {
      DecodeNext(serialized, t.subdirs, cursor.offset, count - i);
      var child, sub := DeserializeTree(serialized, cursor);
      node.Add(child, t, sub);
      t := t.(subdirs := t.subdirs + [sub]);
      i := i + 1;
    }
    DecodeNone(serialized, t.subdirs, cursor.offset);
  }

  /** The name of a node and how many subdirectories follow. */
  method ReadNode(serialized: Content, cursor: Cursor) returns (name: Content, count: nat)
    requires cursor.offset <= |serialized|
    requires Decode(serialized, cursor.offset).At?
    modifies cursor
    ensures old(cursor.offset) < cursor.offset <= |serialized|
    ensures var all := DecodeAll(serialized, cursor.offset, count);
      all.AllAt? && Decode(serialized, old(cursor.offset)) == At(Tree(name, all.trees), all.offset)
  {
    hide GetInt;
    hide CString;
    hide DecodeAll;
    var nameLength := GetInt(Slice(serialized, cursor.offset, INT));
    cursor.offset := cursor.offset + INT;
    name := Slice(serialized, cursor.offset, nameLength);
    name := CString(name);
    cursor.offset := cursor.offset + nameLength;
    var numSubdirs := GetInt(Slice(serialized, cursor.offset, INT));
    cursor.offset := cursor.offset + INT;
    count := if numSubdirs > 0 then numSubdirs else 0;
  }

  /** The trees parsed so far before the rest. */
  ghost function Rest(done: seq<Tree>, rest: ParsedAll): (r: ParsedAll)
    ensures r.AllAt? <==> rest.AllAt?
  {
    match rest
    case BadAll => BadAll
    case AllAt(trees, end) => AllAt(done + trees, end)
  }

  lemma DecodeNext(s: Content, done: seq<Tree>, offset: nat, count: nat)
    requires offset <= |s| && count > 0 && DecodeAll(s, offset, count).AllAt?
    ensures var d := Decode(s, offset);
      d.At? && DecodeAll(s, d.offset, count - 1).AllAt?
      && Rest(done, DecodeAll(s, offset, count)) == Rest(done + [d.tree], DecodeAll(s, d.offset, count - 1))
  {
    hide Decode;
    var d := Decode(s, offset);
    var rest := DecodeAll(s, d.offset, count - 1);
    assert done + ([d.tree] + rest.trees) == done + [d.tree] + rest.trees;
  }

  lemma DecodeNone(s: Content, done: seq<Tree>, offset: nat)
    requires offset <= |s|
    ensures Rest(done, DecodeAll(s, offset, 0)) == AllAt(done, offset)
  {
    assert done + [] == done;
  }
}
