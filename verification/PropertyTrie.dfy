/** The read-only property-info trie: binary search for children and the walk over dotted names. */
module PropertyTrie {
  import opened Wrappers
  import opened CStrings

  type Index = x: int | 0 <= x < 0x1_0000_0000

  /** `~0u`: the entry carries no index. */
  const NO_INDEX: Index := 0xFFFF_FFFF

  datatype Field = Context | Type

  datatype PropertyEntry = PropertyEntry(name: string, contextIndex: Index, typeIndex: Index) {
    function Get(f: Field): Index {
      if f == Context then contextIndex else typeIndex
    }
  }

  datatype TrieNode = TrieNode(
    entry: PropertyEntry, children: seq<TrieNode>, prefixes: seq<PropertyEntry>, exacts: seq<PropertyEntry>)

  predicate Piece(s: string) {
    IsCString(s) && '.' !in s
  }

  /** Prefix pieces are non-empty: by definition they are longer than the node itself. */
  ghost predicate LongestFirst(prefixes: seq<PropertyEntry>) {
    && (forall i | 0 <= i < |prefixes| :: Piece(prefixes[i].name) && prefixes[i].name != "")
    && (forall i, j | 0 <= i < j < |prefixes| ::
          |prefixes[i].name| >= |prefixes[j].name| && prefixes[i].name != prefixes[j].name)
  }

  ghost predicate Sorted(children: seq<TrieNode>) {
    forall i, j | 0 <= i < j < |children| :: StrCmp(children[i].entry.name, children[j].entry.name) < 0
  }

  /** What the builder guarantees: sorted children, longest prefixes first, pieces without dots, no duplicates. */
  ghost predicate WellFormed(node: TrieNode) {
    && (forall i | 0 <= i < |node.children| ::
          Piece(node.children[i].entry.name) && WellFormed(node.children[i]))
    && Sorted(node.children)
    && LongestFirst(node.prefixes)
    && (forall i | 0 <= i < |node.exacts| :: Piece(node.exacts[i].name))
    && (forall i, j | 0 <= i < j < |node.exacts| :: node.exacts[i].name != node.exacts[j].name)
  }

  // ---------- Binary search ----------

  /** Negative below the sought element, zero at it, positive above. */
  ghost predicate Ascending(length: nat, f: int -> int) {
    forall i, j | 0 <= i < j < length :: f(i) >= 0 ==> f(j) > 0
  }

  method Find(length: nat, f: int -> int) returns (index: int)
    requires Ascending(length, f)
    ensures -1 <= index < length
    ensures index >= 0 ==> f(index) == 0
    ensures index == -1 ==> forall i | 0 <= i < length :: f(i) != 0
  {
    var bottom := 0;
    var top := length - 1;
    while top >= bottom
      invariant 0 <= bottom <= top + 1 <= length
      invariant forall i | 0 <= i < bottom :: f(i) != 0
      invariant forall i | top < i < length :: f(i) != 0
    {
      var search := (top + bottom) / 2;
      var cmp := f(search);
      if cmp == 0 {
        return search;
      }
      if cmp < 0 {
        bottom := search + 1;
      }
      if cmp > 0 {
        top := search - 1;
      }
    }
    return -1;
  }

  /** strncmp against the first `length` characters, with a longer child name counted as greater. */
  function CompareChild(child: string, name: string, length: nat): int {
    var cmp := StrNCmp(child, name, length);
    if cmp == 0 && At(child, length) != NUL then 1 else cmp
  }

  /** The truncated comparison orders child names as strcmp orders them against the piece. */
  lemma {:induction false} CompareChildIsStrCmp(child: string, name: string, length: nat)
    requires IsCString(child) && IsCString(name) && length <= |name|
    ensures CompareChild(child, name, length) < 0 <==> StrCmp(child, name[..length]) < 0
    ensures CompareChild(child, name, length) == 0 <==> child == name[..length]
    decreases length
  {
    var piece := name[..length];
    StrCmpZero(child, piece);
    if length == 0 {
      assert piece == "";
    } else if |child| > 0 && child[0] == name[0] {
      CompareChildIsStrCmp(child[1..], name[1..], length - 1);
      assert name[1..][..length - 1] == piece[1..];
      assert child == [child[0]] + child[1..] && piece == [piece[0]] + piece[1..];
    }
  }

  lemma PieceAbove(a: string, b: string, piece: string)
    requires IsCString(a) && IsCString(b) && IsCString(piece)
    requires StrCmp(a, b) < 0 && StrCmp(a, piece) >= 0
    ensures StrCmp(b, piece) > 0
  {
    StrCmpZero(a, piece);
    StrCmpFlips(a, piece);
    StrCmpFlips(b, a);
    StrCmpFlips(b, piece);
    if a != piece {
      StrCmpTransitive(piece, a, b);
    }
  }

  function ChildAt(node: TrieNode, piece: string, from: nat): (child: Option<TrieNode>)
    requires from <= |node.children|
    ensures child.Some? ==> exists i :: from <= i < |node.children| && node.children[i] == child.value
    ensures child.Some? ==> child.value.entry.name == piece && child.value < node
    ensures child.None? ==> forall i | from <= i < |node.children| :: node.children[i].entry.name != piece
    decreases |node.children| - from
  {
    if from == |node.children| then None
    else if node.children[from].entry.name == piece then Some(node.children[from])
    else ChildAt(node, piece, from + 1)
  }

  /** The child with the given name; there is at most one. */
  function ChildNamed(node: TrieNode, piece: string): (child: Option<TrieNode>)
    ensures child.Some? ==> exists i :: 0 <= i < |node.children| && node.children[i] == child.value
    ensures child.Some? ==> child.value.entry.name == piece && child.value < node
    ensures child.None? ==> forall i | 0 <= i < |node.children| :: node.children[i].entry.name != piece
  {
    ChildAt(node, piece, 0)
  }

  lemma DistinctChildren(node: TrieNode, i: int, j: int)
    requires WellFormed(node) && 0 <= i < |node.children| && 0 <= j < |node.children| && i != j
    ensures node.children[i].entry.name != node.children[j].entry.name
  {
    var a, b := if i < j then i else j, if i < j then j else i;
    StrCmpZero(node.children[a].entry.name, node.children[b].entry.name);
  }

  lemma OnlyChildNamed(node: TrieNode, piece: string, index: int)
    requires WellFormed(node) && 0 <= index < |node.children| && node.children[index].entry.name == piece
    ensures ChildNamed(node, piece) == Some(node.children[index])
  {
    var found := ChildNamed(node, piece);
    var i :| 0 <= i < |node.children| && node.children[i] == found.value;
    if i != index {
      DistinctChildren(node, i, index);
    }
  }

  method FindChildForString(node: TrieNode, name: string, namelen: nat) returns (child: Option<TrieNode>)
    requires WellFormed(node) && IsCString(name) && namelen <= |name|
    ensures child == ChildNamed(node, name[..namelen])
  {
    var children := node.children;
    var compare := i => if 0 <= i < |children| then CompareChild(children[i].entry.name, name, namelen) else 0;
    ghost var piece := name[..namelen];
    forall i, j | 0 <= i < j < |children| && compare(i) >= 0 ensures compare(j) > 0 {
      var a, b := children[i].entry.name, children[j].entry.name;
      CompareChildIsStrCmp(a, name, namelen);
      CompareChildIsStrCmp(b, name, namelen);
      PieceAbove(a, b, piece);
    }
    var index := Find(|children|, compare);
    forall i | 0 <= i < |children| ensures compare(i) == 0 <==> children[i].entry.name == piece {
      CompareChildIsStrCmp(children[i].entry.name, name, namelen);
    }
    child := if index == -1 then None else Some(children[index]);
    if index >= 0 {
      OnlyChildNamed(node, piece, index);
    }
  }

  // ---------- The walk ----------

  /** Offset of the first '.', or the length of the string. */
  function FirstDot(s: string): (d: nat)
    ensures d <= |s|
    ensures '.' !in s[..d]
    ensures d < |s| ==> s[d] == '.'
  {
    if s == "" || s[0] == '.' then 0 else FirstDot(s[1..]) + 1
  }

  /** The first entry of the list the name starts with. */
  function FirstPrefix(prefixes: seq<PropertyEntry>, name: string): (found: Option<PropertyEntry>)
  {
    if prefixes == [] then None
    else if prefixes[0].name <= name then Some(prefixes[0])
    else FirstPrefix(prefixes[1..], name)
  }

  function FirstExact(exacts: seq<PropertyEntry>, name: string): (found: Option<PropertyEntry>)
  {
    if exacts == [] then None
    else if exacts[0].name == name then Some(exacts[0])
    else FirstExact(exacts[1..], name)
  }

  /** An entry without an index leaves what was found before. */
  function Override(before: Index, entry: Option<PropertyEntry>, f: Field): Index {
    if entry.Some? && entry.value.Get(f) != NO_INDEX then entry.value.Get(f) else before
  }

  /** What is known at a node after its own entry and its prefixes. */
  function Here(node: TrieNode, rest: string, before: Index, f: Field): Index {
    Override(Override(before, Some(node.entry), f), FirstPrefix(node.prefixes, rest), f)
  }

  function Next(node: TrieNode, rest: string): (child: Option<TrieNode>)
    ensures child.Some? ==> child.value < node
  {
    if FirstDot(rest) == |rest| then None else ChildNamed(node, rest[..FirstDot(rest)])
  }

  function Walk(node: TrieNode, rest: string, before: Index, f: Field): Index
    decreases node
  {
    var here := Here(node, rest, before, f);
    var child := Next(node, rest);
    if child.Some? then Walk(child.value, rest[FirstDot(rest) + 1..], here, f)
    else Override(here, FirstExact(node.exacts, rest), f)
  }

  method CheckPrefixMatch(remaining: string, node: TrieNode, context: Index, typ: Index)
    returns (contextIndex: Index, typeIndex: Index)
    requires WellFormed(node) && IsCString(remaining)
    ensures contextIndex == Override(context, FirstPrefix(node.prefixes, remaining), Context)
    ensures typeIndex == Override(typ, FirstPrefix(node.prefixes, remaining), Type)
  {
    contextIndex, typeIndex := context, typ;
    var i := 0;
    while i < |node.prefixes|
      invariant 0 <= i <= |node.prefixes|
      invariant contextIndex == context && typeIndex == typ
      invariant FirstPrefix(node.prefixes, remaining) == FirstPrefix(node.prefixes[i..], remaining)
    {
      var prefix := node.prefixes[i];
      StrNCmpPrefix(prefix.name, remaining);
      if |prefix.name| <= |remaining| && StrNCmp(prefix.name, remaining, |prefix.name|) == 0 {
        if prefix.contextIndex != NO_INDEX {
          contextIndex := prefix.contextIndex;
        }
        if prefix.typeIndex != NO_INDEX {
          typeIndex := prefix.typeIndex;
        }
        return;
      }
      i := i + 1;
    }
  }

  /** A node on the way: its own entry first, then its prefixes. */
  method EnterNode(remaining: string, node: TrieNode, context: Index, typ: Index)
    returns (contextIndex: Index, typeIndex: Index)
    requires WellFormed(node) && IsCString(remaining)
    ensures contextIndex == Here(node, remaining, context, Context)
    ensures typeIndex == Here(node, remaining, typ, Type)
  {
    contextIndex, typeIndex := context, typ;
    if node.entry.contextIndex != NO_INDEX {
      contextIndex := node.entry.contextIndex;
    }
    if node.entry.typeIndex != NO_INDEX {
      typeIndex := node.entry.typeIndex;
    }
    contextIndex, typeIndex := CheckPrefixMatch(remaining, node, contextIndex, typeIndex);
  }

  /** Exact matches of the last node reached, then its prefixes once more: the second time they change nothing. */
  method MatchLeaf(remaining: string, node: TrieNode, context: Index, typ: Index)
    returns (contextIndex: Index, typeIndex: Index)
    requires WellFormed(node) && IsCString(remaining)
    requires context == Override(context, FirstPrefix(node.prefixes, remaining), Context)
    requires typ == Override(typ, FirstPrefix(node.prefixes, remaining), Type)
    ensures contextIndex == Override(context, FirstExact(node.exacts, remaining), Context)
    ensures typeIndex == Override(typ, FirstExact(node.exacts, remaining), Type)
  {
    contextIndex, typeIndex := context, typ;
    var i := 0;
    while i < |node.exacts|
      invariant 0 <= i <= |node.exacts|
      invariant FirstExact(node.exacts, remaining) == FirstExact(node.exacts[i..], remaining)
    {
      var exact := node.exacts[i];
      StrCmpZero(exact.name, remaining);
      if StrCmp(exact.name, remaining) == 0 {
        contextIndex := if exact.contextIndex != NO_INDEX then exact.contextIndex else contextIndex;
        typeIndex := if exact.typeIndex != NO_INDEX then exact.typeIndex else typeIndex;
        return;
      }
      i := i + 1;
    }
    contextIndex, typeIndex := CheckPrefixMatch(remaining, node, contextIndex, typeIndex);
  }

  method GetPropertyInfoIndexes(root: TrieNode, name: string) returns (contextIndex: Index, typeIndex: Index)
    requires WellFormed(root) && IsCString(name)
    ensures contextIndex == Walk(root, name, NO_INDEX, Context)
    ensures typeIndex == Walk(root, name, NO_INDEX, Type)
  {
    contextIndex, typeIndex := NO_INDEX, NO_INDEX;
    var remaining := name;
    var node := root;
    while true
      invariant WellFormed(node) && IsCString(remaining)
      invariant Walk(root, name, NO_INDEX, Context) == Walk(node, remaining, contextIndex, Context)
      invariant Walk(root, name, NO_INDEX, Type) == Walk(node, remaining, typeIndex, Type)
      decreases |remaining|
    {
      var sep := FirstDot(remaining);
      contextIndex, typeIndex := EnterNode(remaining, node, contextIndex, typeIndex);
      if sep == |remaining| {
        break;
      }
      var child := FindChildForString(node, remaining, sep);
      if child.None? {
        break;
      }
      node := child.value;
      remaining := remaining[sep + 1..];
    }
    contextIndex, typeIndex := MatchLeaf(remaining, node, contextIndex, typeIndex);
  }
}
