/**
 The app-tree inventory of scripts/mac-app-tree.py and its comparison in verifyMacAppTree of
 scripts/mac-app-delivery.ts. A directory lists its children in the order of sorted(os.listdir), and the
 tree does not change while it is read. Content and attribute digests stand for what they were taken of.
 */
module AppTree {
  import opened Options

  datatype Meta = Meta(mode: nat, uid: nat, gid: nat, flags: nat, acl: string, xattrs: map<string, string>)

  /** `links` is st_nlink; `escapes` says that the link resolves outside the bundle. */
  datatype Node =
    | Directory(meta: Meta, children: seq<Child>)
    | File(meta: Meta, links: nat, sha256: string)
    | Symlink(meta: Meta, target: string, escapes: bool)
    | Special(meta: Meta)

  datatype Child = Child(name: string, node: Node)

  datatype Kind = AsDirectory | AsFile(sha256: string) | AsSymlink(target: string)

  datatype Entry = Entry(path: string, meta: Meta, kind: Kind)

  /** What a file system lets a directory entry be called. */
  predicate ValidName(name: string) {
    name != "" && name != "." && '/' !in name
  }

  predicate Valid(node: Node) {
    node.Directory? ==> ValidList(node.children)
  }

  predicate ValidList(children: seq<Child>) {
    children != [] ==> ValidName(children[0].name) && Valid(children[0].node) && ValidList(children[1..])
  }

  /** Trees the inventory accepts: single-linked files, contained links, nothing else but directories. */
  predicate Supported(node: Node) {
    match node
    case Directory(_, children) => SupportedList(children)
    case File(_, links, _) => links == 1
    case Symlink(_, _, escapes) => !escapes
    case Special(_) => false
  }

  predicate SupportedList(children: seq<Child>) {
    children != [] ==> Supported(children[0].node) && SupportedList(children[1..])
  }

  function ChildPath(relative: string, name: string): string {
    if relative == "." then name else relative + "/" + name
  }

  /** Preorder: a directory's entry, then its children's. */
  function Inventory(node: Node, relative: string): (entries: seq<Entry>)
    ensures Supported(node) ==> entries != [] && entries[0].path == relative
  {
    match node
    case Directory(meta, children) => [Entry(relative, meta, AsDirectory)] + InventoryList(children, relative)
    case File(meta, _, sha256) => [Entry(relative, meta, AsFile(sha256))]
    case Symlink(meta, target, _) => [Entry(relative, meta, AsSymlink(target))]
    case Special(_) => []
  }

  function InventoryList(children: seq<Child>, relative: string): seq<Entry> {
    if children == [] then []
    else Inventory(children[0].node, ChildPath(relative, children[0].name)) + InventoryList(children[1..], relative)
  }

  /** The recursive walk appends to `entries`; None is a raised error. */
  method Walk(node: Node, relative: string, entries: seq<Entry>) returns (r: Option<seq<Entry>>)
    ensures r.Some? <==> Supported(node)
    ensures r.Some? ==> r.value == entries + Inventory(node, relative)
    decreases node
  {
    match node {
      case Symlink(meta, target, escapes) =>
        return if escapes then None else Some(entries + [Entry(relative, meta, AsSymlink(target))]);
      case File(meta, links, sha256) =>
        return if links != 1 then None else Some(entries + [Entry(relative, meta, AsFile(sha256))]);
      case Special(_) =>
        return None;
      case Directory(meta, children) =>
        r := WalkChildren(children, relative, entries + [Entry(relative, meta, AsDirectory)]);
    }
  }

  method WalkChildren(children: seq<Child>, relative: string, entries: seq<Entry>) returns (r: Option<seq<Entry>>)
    ensures r.Some? <==> SupportedList(children)
    ensures r.Some? ==> r.value == entries + InventoryList(children, relative)
    decreases children
  {
    var sofar := entries;
    for i := 0 to |children|
      invariant SupportedList(children) <==> SupportedList(children[i..])
      invariant sofar + InventoryList(children[i..], relative) == entries + InventoryList(children, relative)
    {
      NextChild(children, i, relative);
      var path := ChildPath(relative, children[i].name);
      var below := Walk(children[i].node, path, sofar);
      if below.None? {
        return None;
      }
      Associative(sofar, Inventory(children[i].node, path), InventoryList(children[i + 1..], relative));
      sofar := below.value;
    }
    assert children[|children|..] == [];
    return Some(sofar);
  }

  lemma NextChild(children: seq<Child>, i: nat, relative: string)
    requires i < |children|
    ensures InventoryList(children[i..], relative) ==
            Inventory(children[i].node, ChildPath(relative, children[i].name))
            + InventoryList(children[i + 1..], relative)
    ensures SupportedList(children[i..]) <==> Supported(children[i].node) && SupportedList(children[i + 1..])
  {
    assert children[i..][0] == children[i] && children[i..][1..] == children[i + 1..];
  }

  /** The root must be a real directory. */
  method InventoryOf(root: Node) returns (r: Option<seq<Entry>>)
    ensures r.Some? <==> root.Directory? && Supported(root)
    ensures r.Some? ==> r.value == Inventory(root, ".")
  {
    if !root.Directory? {
      return None;
    }
    r := Walk(root, ".", []);
  }

  // ---------------------------------------------------------------------------
  // Injectivity

  predicate StartsWith(s: string, prefix: string) {
    |prefix| <= |s| && s[..|prefix|] == prefix
  }

  /** `path` names something below the directory `relative`. */
  predicate Under(relative: string, path: string) {
    relative == "." || StartsWith(path, relative + "/")
  }

  /** What follows a subtree in the inventory does not look like a part of it. */
  predicate Apart(relative: string, rest: seq<Entry>) {
    rest != [] ==> !Under(relative, rest[0].path)
  }

  lemma NotBelow(p: string, q: string)
    requires |p| < |q| ==> q[|p|] != '/'
    ensures !StartsWith(q, p + "/")
  {
    assert |p| < |q| ==> q[..|p| + 1][|p|] == q[|p|];
    assert (p + "/")[|p|] == '/';
  }

  lemma ChildPathFacts(relative: string, name: string, other: string)
    requires ValidName(name) && ValidName(other)
    ensures Under(relative, ChildPath(relative, name)) && ChildPath(relative, name) != "."
    ensures ChildPath(relative, name) == ChildPath(relative, other) ==> name == other
    ensures !Under(ChildPath(relative, name), ChildPath(relative, other))
  {
    var p, q := ChildPath(relative, name), ChildPath(relative, other);
    if relative != "." {
      var k := |relative| + 1;
      assert p[|relative|] == '/' && p[k..] == name && q[k..] == other;
      assert p[..k] == relative + "/";
      assert |p| < |q| ==> q[|p|] == q[k..][|p| - k];
    }
    NotBelow(p, q);
  }

  lemma UnderIsTransitive(relative: string, name: string, path: string)
    requires ValidName(name) && Under(ChildPath(relative, name), path)
    ensures Under(relative, path)
  {
    ChildPathFacts(relative, name, name);
    var p := ChildPath(relative, name) + "/";
    if relative != "." {
      assert path[..|relative| + 1] == path[..|p|][..|relative| + 1] == p[..|relative| + 1] == relative + "/";
    }
  }

  lemma RestIsApart(relative: string, name: string, children: seq<Child>, rest: seq<Entry>)
    requires ValidName(name) && ValidList(children) && SupportedList(children) && Apart(relative, rest)
    ensures Apart(ChildPath(relative, name), InventoryList(children, relative) + rest)
  {
    ChildPathFacts(relative, name, name);
    if children != [] {
      ChildPathFacts(relative, name, children[0].name);
      assert (InventoryList(children, relative) + rest)[0].path == ChildPath(relative, children[0].name);
    } else {
      assert InventoryList(children, relative) + rest == rest;
      if rest != [] && Under(ChildPath(relative, name), rest[0].path) {
        UnderIsTransitive(relative, name, rest[0].path);
      }
    }
  }

  lemma {:induction false} NodeIsDetermined(a: Node, b: Node, relative: string, ra: seq<Entry>, rb: seq<Entry>)
    requires Valid(a) && Valid(b) && Supported(a) && Supported(b)
    requires Apart(relative, ra) && Apart(relative, rb)
    requires Inventory(a, relative) + ra == Inventory(b, relative) + rb
    ensures a == b && ra == rb
    decreases a
  {
    FirstEntry(a, relative, ra);
    FirstEntry(b, relative, rb);
    if a.Directory? {
      ListIsDetermined(a.children, b.children, relative, ra, rb);
    }
  }

  /** An inventory is the node's own entry, then what lies below it. */
  lemma FirstEntry(node: Node, relative: string, rest: seq<Entry>)
    requires Supported(node)
    ensures var all := Inventory(node, relative) + rest;
            && all != [] && all[0] == Inventory(node, relative)[0]
            && all[1..] == (if node.Directory? then InventoryList(node.children, relative) else []) + rest
  {
    var below := if node.Directory? then InventoryList(node.children, relative) else [];
    var own := [Inventory(node, relative)[0]];
    assert Inventory(node, relative) == own + below;
    Associative(own, below, rest);
  }

  lemma FirstSubtree(a: seq<Child>, relative: string, rest: seq<Entry>)
    requires a != [] && SupportedList(a)
    ensures var path := ChildPath(relative, a[0].name);
            var all := Inventory(a[0].node, path) + (InventoryList(a[1..], relative) + rest);
            InventoryList(a, relative) + rest == all && all[0].path == path
  {
    var path := ChildPath(relative, a[0].name);
    Associative(Inventory(a[0].node, path), InventoryList(a[1..], relative), rest);
  }

  lemma Associative(a: seq<Entry>, b: seq<Entry>, c: seq<Entry>)
    ensures (a + b) + c == a + (b + c)
  {
  }

  lemma {:induction false} ListIsDetermined(
    a: seq<Child>, b: seq<Child>, relative: string, ra: seq<Entry>, rb: seq<Entry>)
    requires ValidList(a) && ValidList(b) && SupportedList(a) && SupportedList(b)
    requires Apart(relative, ra) && Apart(relative, rb)
    requires InventoryList(a, relative) + ra == InventoryList(b, relative) + rb
    ensures a == b && ra == rb
    decreases a
  {
    if a == [] || b == [] {
      EmptyIsDetermined(a, b, relative, ra, rb);
    } else {
      var path := ChildPath(relative, a[0].name);
      SameFirstChild(a, b, relative, ra, rb);
      RestIsApart(relative, a[0].name, a[1..], ra);
      RestIsApart(relative, b[0].name, b[1..], rb);
      NodeIsDetermined(a[0].node, b[0].node, path,
                       InventoryList(a[1..], relative) + ra, InventoryList(b[1..], relative) + rb);
      ListIsDetermined(a[1..], b[1..], relative, ra, rb);
      assert a == [a[0]] + a[1..] && b == [b[0]] + b[1..];
    }
  }

  /** Equal inventories of two nonempty listings start with children of the same name. */
  lemma SameFirstChild(a: seq<Child>, b: seq<Child>, relative: string, ra: seq<Entry>, rb: seq<Entry>)
    requires ValidList(a) && ValidList(b) && SupportedList(a) && SupportedList(b) && a != [] && b != []
    requires InventoryList(a, relative) + ra == InventoryList(b, relative) + rb
    ensures a[0].name == b[0].name
    ensures var path := ChildPath(relative, a[0].name);
            Inventory(a[0].node, path) + (InventoryList(a[1..], relative) + ra)
            == Inventory(b[0].node, path) + (InventoryList(b[1..], relative) + rb)
  {
    FirstSubtree(a, relative, ra);
    FirstSubtree(b, relative, rb);
    ChildPathFacts(relative, a[0].name, b[0].name);
  }

  lemma FirstIsUnder(children: seq<Child>, relative: string, rest: seq<Entry>)
    requires ValidList(children) && SupportedList(children) && children != []
    ensures var all := InventoryList(children, relative) + rest;
            all != [] && Under(relative, all[0].path)
  {
    ChildPathFacts(relative, children[0].name, children[0].name);
    assert (InventoryList(children, relative) + rest)[0].path == ChildPath(relative, children[0].name);
  }

  lemma EmptyIsDetermined(a: seq<Child>, b: seq<Child>, relative: string, ra: seq<Entry>, rb: seq<Entry>)
    requires ValidList(a) && ValidList(b) && SupportedList(a) && SupportedList(b) && (a == [] || b == [])
    requires Apart(relative, ra) && Apart(relative, rb)
    requires InventoryList(a, relative) + ra == InventoryList(b, relative) + rb
    ensures a == b && ra == rb
  {
    if a != [] {
      FirstIsUnder(a, relative, ra);
    }
    if b != [] {
      FirstIsUnder(b, relative, rb);
    }
    assert InventoryList([], relative) + ra == ra && InventoryList([], relative) + rb == rb;
  }

  /** The ordered preorder inventory determines the tree. */
  lemma InventoryIsInjective(a: Node, b: Node)
    requires Valid(a) && Valid(b) && Supported(a) && Supported(b)
    requires Inventory(a, ".") == Inventory(b, ".")
    ensures a == b
  {
    assert Inventory(a, ".") + [] == Inventory(b, ".") + [];
    NodeIsDetermined(a, b, ".", [], []);
  }

  // ---------------------------------------------------------------------------
  // verifyMacAppTree

  function EraseOwner(meta: Meta): Meta {
    meta.(uid := 0, gid := 0)
  }

  /** The comparable form of an inventory: every entry's owner and group are zeroed. */
  function Comparable(entries: seq<Entry>): (r: seq<Entry>)
    ensures |r| == |entries|
  {
    if entries == [] then []
    else [entries[0].(meta := EraseOwner(entries[0].meta))] + Comparable(entries[1..])
  }

  /** The tree with owner and group zeroed everywhere. */
  function Ownerless(node: Node): Node {
    match node
    case Directory(meta, children) => Directory(EraseOwner(meta), OwnerlessList(children))
    case File(meta, links, sha256) => File(EraseOwner(meta), links, sha256)
    case Symlink(meta, target, escapes) => Symlink(EraseOwner(meta), target, escapes)
    case Special(meta) => Special(EraseOwner(meta))
  }

  function OwnerlessList(children: seq<Child>): seq<Child> {
    if children == [] then []
    else [Child(children[0].name, Ownerless(children[0].node))] + OwnerlessList(children[1..])
  }

  lemma {:induction false} ComparableConcat(a: seq<Entry>, b: seq<Entry>)
    ensures Comparable(a + b) == Comparable(a) + Comparable(b)
  {
    if a == [] {
      assert a + b == b;
    } else {
      var head := a[0].(meta := EraseOwner(a[0].meta));
      assert (a + b)[0] == a[0] && (a + b)[1..] == a[1..] + b;
      ComparableConcat(a[1..], b);
      Associative([head], Comparable(a[1..]), Comparable(b));
    }
  }

  lemma {:induction false} ComparableInventory(node: Node, relative: string)
    ensures Comparable(Inventory(node, relative)) == Inventory(Ownerless(node), relative)
    ensures Valid(Ownerless(node)) == Valid(node) && Supported(Ownerless(node)) == Supported(node)
    decreases node
  {
    if node.Directory? {
      ComparableList(node.children, relative);
      ComparableConcat([Entry(relative, node.meta, AsDirectory)], InventoryList(node.children, relative));
    }
  }

  lemma {:induction false} ComparableList(children: seq<Child>, relative: string)
    ensures Comparable(InventoryList(children, relative)) == InventoryList(OwnerlessList(children), relative)
    ensures ValidList(OwnerlessList(children)) == ValidList(children)
    ensures SupportedList(OwnerlessList(children)) == SupportedList(children)
    decreases children
  {
    if children != [] {
      var head := Inventory(children[0].node, ChildPath(relative, children[0].name));
      ComparableInventory(children[0].node, ChildPath(relative, children[0].name));
      ComparableList(children[1..], relative);
      ComparableConcat(head, InventoryList(children[1..], relative));
      var bare := OwnerlessList(children);
      assert bare[0] == Child(children[0].name, Ownerless(children[0].node));
      assert bare[1..] == OwnerlessList(children[1..]);
    }
  }

  /** Equal field by field, except for owner and group. */
  predicate SameButOwner(a: Node, b: Node) {
    && a.meta.mode == b.meta.mode && a.meta.flags == b.meta.flags && a.meta.acl == b.meta.acl
    && a.meta.xattrs == b.meta.xattrs
    && match (a, b)
       case (Directory(_, x), Directory(_, y)) => |x| == |y| && SameChildren(x, y)
       case (File(_, links, sha256), File(_, links', sha256')) => links == links' && sha256 == sha256'
       case (Symlink(_, target, escapes), Symlink(_, target', escapes')) => target == target' && escapes == escapes'
       case (Special(_), Special(_)) => true
       case _ => false
  }

  predicate SameChildren(a: seq<Child>, b: seq<Child>) {
    if a == [] || b == [] then a == b
    else a[0].name == b[0].name && SameButOwner(a[0].node, b[0].node) && SameChildren(a[1..], b[1..])
  }

  lemma {:induction false} OwnerlessIff(a: Node, b: Node)
    ensures Ownerless(a) == Ownerless(b) <==> SameButOwner(a, b)
    decreases a
  {
    if a.Directory? && b.Directory? {
      OwnerlessListIff(a.children, b.children);
    }
  }

  lemma {:induction false} OwnerlessListIff(a: seq<Child>, b: seq<Child>)
    ensures OwnerlessList(a) == OwnerlessList(b) <==> SameChildren(a, b)
    ensures SameChildren(a, b) ==> |a| == |b|
    decreases a
  {
    if a != [] && b != [] {
      OwnerlessIff(a[0].node, b[0].node);
      OwnerlessListIff(a[1..], b[1..]);
      var x, y := OwnerlessList(a), OwnerlessList(b);
      assert x[0] == Child(a[0].name, Ownerless(a[0].node)) && x[1..] == OwnerlessList(a[1..]);
      assert y[0] == Child(b[0].name, Ownerless(b[0].node)) && y[1..] == OwnerlessList(b[1..]);
    }
  }

  /** The node at the end of a path of child numbers. */
  function At(node: Node, path: seq<nat>): Option<Node>
    decreases path
  {
    if path == [] then Some(node)
    else if node.Directory? && path[0] < |node.children| then At(node.children[path[0]].node, path[1..])
    else None
  }

  predicate Accepted(node: Node) {
    match node
    case Directory(_, _) => true
    case File(_, links, _) => links == 1
    case Symlink(_, _, escapes) => !escapes
    case Special(_) => false
  }

  lemma AtChild(node: Node, path: seq<nat>)
    requires path != []
    ensures node.Directory? && path[0] < |node.children| ==>
              At(node, path) == At(node.children[path[0]].node, path[1..])
    ensures !(node.Directory? && path[0] < |node.children|) ==> At(node, path).None?
  {
  }

  predicate AcceptedAt(node: Node, path: seq<nat>) {
    At(node, path).Some? ==> Accepted(At(node, path).value)
  }

  /** A tree is supported exactly when every node in it is a directory, a file of one link or a link within. */
  lemma {:induction false} SupportedIff(root: Node)
    ensures Supported(root) <==> forall path :: AcceptedAt(root, path)
    decreases root
  {
    if root.Directory? {
      SupportedListIff(root.children);
      forall i | 0 <= i < |root.children|
        ensures Supported(root.children[i].node) <==> forall path :: AcceptedAt(root.children[i].node, path)
      {
        SupportedIff(root.children[i].node);
      }
    }
    if Supported(root) {
      forall path
        ensures AcceptedAt(root, path)
      {
        if path != [] {
          AtChild(root, path);
          assert root.Directory? && path[0] < |root.children| ==> AcceptedAt(root.children[path[0]].node, path[1..]);
        }
      }
    } else if root.Directory? {
      var i :| 0 <= i < |root.children| && !Supported(root.children[i].node);
      var path :| !AcceptedAt(root.children[i].node, path);
      AtChild(root, [i] + path);
      assert ([i] + path)[1..] == path;
      assert !AcceptedAt(root, [i] + path);
    } else {
      assert !AcceptedAt(root, []);
    }
  }

  lemma {:induction false} SupportedListIff(children: seq<Child>)
    ensures SupportedList(children) <==> forall i :: 0 <= i < |children| ==> Supported(children[i].node)
  {
    if children != [] {
      SupportedListIff(children[1..]);
      assert forall i :: 0 < i < |children| ==> children[i] == children[1..][i - 1];
    }
  }

  /** What a manifest is: the inventory of some tree a file system can hold. */
  ghost predicate Recorded(built: Node, manifest: seq<Entry>) {
    built.Directory? && Valid(built) && Supported(built) && manifest == Inventory(built, ".")
  }

  predicate Accepts(app: Node, manifest: seq<Entry>) {
    app.Directory? && Supported(app) && Comparable(Inventory(app, ".")) == Comparable(manifest)
  }

  /**
   Verification accepts exactly the trees equal to the recorded one in every field but owner and group; so it
   refuses one that is no directory, or that holds anything else than directories, files of one link and links
   within.
   */
  method VerifyMacAppTree(app: Node, manifest: seq<Entry>) returns (accepted: bool)
    requires Valid(app)
    ensures accepted == Accepts(app, manifest)
    ensures forall built :: Recorded(built, manifest) ==> (accepted <==> SameButOwner(app, built))
    ensures accepted ==> forall path :: AcceptedAt(app, path)
  {
    SupportedIff(app);
    var actual := InventoryOf(app);
    accepted := actual.Some? && Comparable(actual.value) == Comparable(manifest);
    forall built | Recorded(built, manifest)
      ensures accepted <==> SameButOwner(app, built)
    {
      VerifyAcceptsIff(app, built);
    }
  }

  lemma VerifyAcceptsIff(app: Node, built: Node)
    requires Valid(app) && Recorded(built, Inventory(built, "."))
    ensures Accepts(app, Inventory(built, ".")) <==> SameButOwner(app, built)
  {
    OwnerlessIff(app, built);
    ComparableInventory(app, ".");
    ComparableInventory(built, ".");
    if Accepts(app, Inventory(built, ".")) {
      InventoryIsInjective(Ownerless(app), Ownerless(built));
    }
  }
}
