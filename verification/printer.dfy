/**
 * The printer of print/print.go as it runs: `hasRightSibling`, the loops that
 * build the branch strings, and `printNode` / `Print` writing their lines to
 * standard output, which is modelled by a `Console` that records every line.
 */
module Printer {
  import opened Strings
  import opened TreeLayout

  datatype Option<T> = None | Some(value: T)

  /** The outcome of an operation that either answers or fails on an index out of range. */
  datatype Result<T> = Ok(value: T) | IndexOutOfRange

  /** No element occurs twice: for pointers, no node appears twice among its parent's children. */
  predicate Distinct<N(==)>(s: seq<N>)
  {
    forall j, k :: 0 <= j < k < |s| ==> s[j] != s[k]
  }

  /**
   * `hasRightSibling(node, parentNode, getChildren)`. `siblings` is `None` when
   * `parentNode` is nil and `Some(getChildren(parentNode))` otherwise; equality
   * on `N` stands for pointer identity. Taking the last element of an empty
   * children slice fails.
   */
  function HasRightSibling<N(==)>(node: N, siblings: Option<seq<N>>): (r: Result<bool>)
    ensures siblings.None? ==> r == Ok(false)
    ensures r.IndexOutOfRange? <==> siblings == Some([])
    ensures siblings.Some? && siblings.value != [] ==> (r == Ok(true) <==> node != siblings.value[|siblings.value| - 1])
  {
    match siblings
    case None => Ok(false)
    case Some(s) => if |s| == 0 then IndexOutOfRange else Ok(s[|s| - 1] != node)
  }

  /**
   * When no child occurs twice, the child at index `i` has a right sibling
   * exactly when `i` is not the last index: the index test the printer's
   * recursion uses.
   */
  lemma HasRightSiblingByIndex<N>(siblings: seq<N>, i: nat)
    requires i < |siblings| && Distinct(siblings)
    ensures HasRightSibling(siblings[i], Some(siblings)) == Ok(i != |siblings| - 1)
  {
  }

  /** Without distinctness the identity test and the index test part: an earlier copy of the last child counts as last. */
  lemma RepeatedLastChild<N>(siblings: seq<N>, i: nat)
    requires i < |siblings| - 1 && siblings[i] == siblings[|siblings| - 1]
    ensures HasRightSibling(siblings[i], Some(siblings)) == Ok(false)
  {
  }

  /** Standard output: the lines printed so far. */
  class Console {
    var lines: seq<string>

    constructor ()
      ensures lines == []
    {
      lines := [];
    }

    /** `fmt.Println(s)`. */
    method Println(s: string)
      modifies this
      ensures lines == old(lines) + [s]
    {
      lines := lines + [s];
    }
  }

  /** The loop that builds `horizontalBranchLine`. */
  method BuildHorizontalBranchLine(level: nat, hasRight: bool) returns (line: string)
    ensures line == HorizontalBranchLine(level, hasRight)
  {
    var padding := "";
    if level != 0 {
      padding := Lpad("", " ", Indent);
    }
    line := padding;
    ghost var frag := Fragment(hasRight);
    for l := 0 to level
      invariant l < level || level == 0 ==> line == padding + Repeat(frag, l)
      invariant l == level && level > 0 ==> line == padding + Repeat(frag, level - 1) + Marker
    {
      if l == level - 1 {
        line := line + Marker;
      } else {
        if hasRight {
          line := line + Bar;
        } else {
          line := line + Blank;
        }
        assert line == padding + Repeat(frag, l) + frag;
      }
    }
  }

  /** The loop that builds `verticalBranchesLine`. */
  method BuildVerticalBranchesLine(level: nat) returns (line: string)
    ensures line == VerticalBranchesLine(level)
  {
    line := Lpad("", " ", Indent);
    for l := 0 to level
      invariant line == Lpad("", " ", Indent) + Repeat(Bar, l)
    {
      line := line + Bar;
    }
  }

  /**
   * `printNode(level, t, parentNode, ...)`, where `hasRight` is what
   * `hasRightSibling(t, parentNode)` answers. Each child is printed with the
   * index test (see HasRightSiblingByIndex), so the model assumes no pointer
   * occurs twice among a node's children.
   */
  method PrintNode(console: Console, level: nat, t: Tree, hasRight: bool)
    modifies console
    ensures console.lines == old(console.lines) + Render(t, level, hasRight)
    decreases t
  {
    var horizontal := BuildHorizontalBranchLine(level, hasRight);
    console.Println(horizontal + " " + t.content);
    ghost var printed := console.lines;
    RenderUnfolds(old(console.lines), t, level, hasRight);
    var children := t.children;
    if |children| == 0 {
      return;
    }
    for i := 0 to |children|
      invariant console.lines == printed + Texts(ChildBlocks(t, level, i))
    {
      PrintStems(console, level);
      PrintNode(console, level + 1, children[i], i != |children| - 1);
      TextsOfNextChild(printed, t, level, i);
    }
  }

  /** One round of the children loop before the recursive call: the four stem lines. */
  method PrintStems(console: Console, level: nat)
    modifies console
    ensures console.lines == old(console.lines) + Texts(StemBlock(level))
  {
    var vertical := BuildVerticalBranchesLine(level);
    for j := 0 to StemRepeat
      invariant console.lines == old(console.lines) + seq(j, _ => StemLine(level))
    {
      console.Println(vertical + "#");
    }
    TextsOfStemBlock(old(console.lines), level);
  }

  /**
   * `Print(root, parentNode, ...)`: print the tree below `root` starting at
   * level 0. `parent` is the caller's `parentNode`; when it has no children the
   * sibling test fails before anything is printed. Otherwise the root's own
   * sibling status does not show in the output.
   */
  method Print(console: Console, root: Tree, parent: Option<Tree>) returns (r: Result<()>)
    modifies console
    ensures r.IndexOutOfRange? <==> parent.Some? && parent.value.children == []
    ensures console.lines == old(console.lines) + (if r.Ok? then Render(root, 0, false) else [])
  {
    var siblings := if parent.Some? then Some(parent.value.children) else None;
    var flag := HasRightSibling(root, siblings);
    if flag.IndexOutOfRange? {
      return IndexOutOfRange;
    }
    PrintNode(console, 0, root, flag.value);
    OwnStatusOnlyInOwnLabel(root, 0);
    return Ok(());
  }
}
