/**
 * What the tree printer of print/print.go emits, as functions of the tree.
 *
 * A node is a `Tree` value: its content and its ordered children. The output
 * is first described as a sequence of `Line`s (a label line for each node, a
 * stem line for each connector row) and then spelled out as strings.
 */
module TreeLayout {
  import opened Strings

  datatype Tree = Node(content: string, children: seq<Tree>)

  /**
   * One printed line before it is spelled out: the label line of a node at
   * `level` whose own right-sibling status is `hasRight`, or a stem line
   * emitted by a parent at `level` before one of its children.
   */
  datatype Line =
    | Label(level: nat, hasRight: bool, content: string)
    | Stem(level: nat)

  /** `indent`: width of the lead-in and of every column fragment. */
  const Indent: nat := 4
  /** How many stem lines a parent prints before each child. */
  const StemRepeat: nat := 4
  const Marker := "#####"
  const Bar := "#   "
  const Blank := "    "

  /** The column fragment a label line repeats: chosen by the node's own sibling status only. */
  function Fragment(hasRight: bool): string
  {
    if hasRight then Bar else Blank
  }

  /** `horizontalBranchLine`: what precedes `" " + content` on a label line. */
  function HorizontalBranchLine(level: nat, hasRight: bool): string
  {
    if level == 0 then "" else Lpad("", " ", Indent) + Repeat(Fragment(hasRight), level - 1) + Marker
  }

  function LabelLine(level: nat, hasRight: bool, content: string): string
  {
    HorizontalBranchLine(level, hasRight) + " " + content
  }

  /** `verticalBranchesLine`: the lead-in and one bar per level of the parent. */
  function VerticalBranchesLine(level: nat): string
  {
    Lpad("", " ", Indent) + Repeat(Bar, level)
  }

  function StemLine(level: nat): string
  {
    VerticalBranchesLine(level) + "#"
  }

  function Text(l: Line): string
  {
    match l
    case Label(level, hasRight, content) => LabelLine(level, hasRight, content)
    case Stem(level) => StemLine(level)
  }

  function Texts(ls: seq<Line>): seq<string>
  {
    seq(|ls|, i requires 0 <= i < |ls| => Text(ls[i]))
  }

  /** The stem lines a parent at `level` prints before each child. */
  function StemBlock(level: nat): seq<Line>
  {
    seq(StemRepeat, _ => Stem(level))
  }

  /** The number of nodes in `t`. */
  function Size(t: Tree): nat
    decreases t, |t.children| + 1
  {
    1 + ForestSize(t, |t.children|)
  }

  /** The number of nodes in the subtrees of the first `k` children of `t`. */
  function ForestSize(t: Tree, k: nat): nat
    requires k <= |t.children|
    decreases t, k
  {
    if k == 0 then 0 else ForestSize(t, k - 1) + Size(t.children[k - 1])
  }

  /**
   * `printNode(level, t, ...)` with `hasRight` the node's own right-sibling
   * status: its label line, then, for each child in order, the stem block and
   * the child's own output one level deeper. A child has a right sibling
   * exactly when it is not the last of its parent's children.
   */
  function Layout(t: Tree, level: nat, hasRight: bool): (ls: seq<Line>)
    ensures |ls| >= 1 && ls[0] == Label(level, hasRight, t.content)
    decreases t, |t.children| + 1
  {
    [Label(level, hasRight, t.content)] + ChildBlocks(t, level, |t.children|)
  }

  /** What the loop over the children of `t` prints in its first `k` rounds. */
  function ChildBlocks(t: Tree, level: nat, k: nat): seq<Line>
    requires k <= |t.children|
    decreases t, k
  {
    if k == 0 then []
    else
      ChildBlocks(t, level, k - 1) + StemBlock(level)
      + Layout(t.children[k - 1], level + 1, k - 1 != |t.children| - 1)
  }

  /** The printed lines. */
  function Render(t: Tree, level: nat, hasRight: bool): (lines: seq<string>)
    ensures |lines| >= 1 && lines[0] == LabelLine(level, hasRight, t.content)
  {
    Texts(Layout(t, level, hasRight))
  }

  /** Reference enumeration: every node of `t` in pre-order, with its depth and sibling status. */
  function PreOrder(t: Tree, level: nat, hasRight: bool): (ls: seq<Line>)
    ensures |ls| == Size(t)
    ensures forall i :: 0 <= i < |ls| ==> ls[i].Label? && ls[i].level >= level
    decreases t, |t.children| + 1
  {
    [Label(level, hasRight, t.content)] + PreOrderChildren(t, level, |t.children|)
  }

  function PreOrderChildren(t: Tree, level: nat, k: nat): (ls: seq<Line>)
    requires k <= |t.children|
    ensures |ls| == ForestSize(t, k)
    ensures forall i :: 0 <= i < |ls| ==> ls[i].Label? && ls[i].level > level
    decreases t, k
  {
    if k == 0 then []
    else
      PreOrderChildren(t, level, k - 1)
      + PreOrder(t.children[k - 1], level + 1, k - 1 != |t.children| - 1)
  }

  /** The label lines of `ls`, in order. */
  function Labels(ls: seq<Line>): seq<Line>
  {
    if ls == [] then []
    else Labels(ls[..|ls| - 1]) + (if ls[|ls| - 1].Label? then [ls[|ls| - 1]] else [])
  }

  /** Every label line after the first is directly preceded by the stem block of its parent's level. */
  predicate StemmedLabels(ls: seq<Line>)
  {
    forall i :: 0 < i < |ls| && ls[i].Label? ==>
      StemRepeat <= i && 1 <= ls[i].level && ls[i - StemRepeat .. i] == StemBlock(ls[i].level - 1)
  }

  /** Column `j` of a printed line: the `Indent` characters from `4j` on (`Indent` is 4). */
  function Column(line: string, j: nat): string
    requires 4 * j + Indent <= |line|
  {
    line[4 * j .. 4 * j + Indent]
  }

  // ---------------------------------------------------------------------
  // Label and stem lines
  // ---------------------------------------------------------------------

  /** The lead-in `lpad("", " ", indent)` is four spaces. */
  lemma LeadInIsBlank()
    ensures Lpad("", " ", Indent) == Blank
  {
    assert Repeat(" ", Indent) == Blank;
  }

  lemma SliceOfMiddle(p: string, m: string, q: string, a: nat, b: nat)
    requires |p| <= a <= b <= |p| + |m|
    ensures (p + m + q)[a .. b] == m[a - |p| .. b - |p|]
  {
    assert (p + m + q)[a .. b] == (p + m)[a .. b];
  }

  /** A repeated four-character fragment fills whole columns. */
  lemma RepeatColumns(s: string, n: nat)
    requires |s| == 4
    ensures |Repeat(s, n)| == 4 * n
    ensures forall j :: 0 <= j < n ==> Column(Repeat(s, n), j) == s
  {
    RepeatLength(s, n);
    forall j | 0 <= j < n
      ensures Column(Repeat(s, n), j) == s
    {
      RepeatBlock(s, n, j);
    }
  }

  /** Column `j` of `p + m + q`, when it lies inside `m` and `p` fills whole columns. */
  lemma ColumnOfMiddle(p: string, m: string, q: string, j: nat)
    requires |p| % 4 == 0 && |m| % 4 == 0
    requires |p| <= 4 * j && 4 * j + 4 <= |p| + |m|
    ensures 4 * j + 4 <= |p + m + q|
    ensures Column(p + m + q, j) == Column(m, j - |p| / 4)
  {
    SliceOfMiddle(p, m, q, 4 * j, 4 * j + 4);
  }

  /** At level 0 the label line is `" " + content`: no lead-in, no fragment, no marker. */
  lemma RootLabelLine(hasRight: bool, content: string)
    ensures LabelLine(0, hasRight, content) == " " + content
  {
  }

  /**
   * At level k >= 1 the label line is four spaces, k-1 copies of the node's
   * own fragment, the marker and `" " + content`: 4 + 4(k-1) + 5 characters
   * before the space.
   */
  lemma LabelLineShape(level: nat, hasRight: bool, content: string)
    requires level >= 1
    ensures |LabelLine(level, hasRight, content)| == 4 * level + 6 + |content|
    ensures Column(LabelLine(level, hasRight, content), 0) == Blank
    ensures forall j :: 1 <= j < level ==> Column(LabelLine(level, hasRight, content), j) == Fragment(hasRight)
    ensures LabelLine(level, hasRight, content)[4 * level .. 4 * level + 5] == Marker
    ensures LabelLine(level, hasRight, content)[4 * level + 5 ..] == " " + content
  {
    LabelLineParts(level, hasRight, content);
    LabelPartsShape(level, Fragment(hasRight), content);
  }

  /** The shape of a label line, stated of its parts: four spaces, `level - 1` fragments, marker, content. */
  lemma LabelPartsShape(level: nat, frag: string, content: string)
    requires level >= 1 && |frag| == 4
    ensures var line := Blank + Repeat(frag, level - 1) + (Marker + " " + content);
      |line| == 4 * level + 6 + |content|
      && Column(line, 0) == Blank
      && (forall j :: 1 <= j < level ==> Column(line, j) == frag)
      && line[4 * level .. 4 * level + 5] == Marker
      && line[4 * level + 5 ..] == " " + content
  {
    var rest := Marker + " " + content;
    BlankThenColumns(frag, level - 1, rest);
    assert rest[..5] == Marker && rest[5..] == " " + content;
  }

  lemma LabelLineParts(level: nat, hasRight: bool, content: string)
    requires level >= 1
    ensures LabelLine(level, hasRight, content) == Blank + Repeat(Fragment(hasRight), level - 1) + (Marker + " " + content)
  {
    LeadInIsBlank();
  }

  /** Four spaces, then `n` copies of a four-character fragment, then `rest`. */
  lemma BlankThenColumns(frag: string, n: nat, rest: string)
    requires |frag| == 4
    ensures var line := Blank + Repeat(frag, n) + rest;
      |line| == 4 * n + 4 + |rest|
      && Column(line, 0) == Blank
      && (forall j :: 1 <= j <= n ==> Column(line, j) == frag)
      && line[4 * n + 4 ..] == rest
  {
    var frags := Repeat(frag, n);
    var line := Blank + frags + rest;
    RepeatColumns(frag, n);
    forall j | 1 <= j <= n
      ensures Column(line, j) == frag
    {
      ColumnOfMiddle(Blank, frags, rest, j);
    }
    assert line[..4] == Blank;
    assert line[4 * n + 4 ..] == rest;
  }

  /** A stem line at level k is four spaces, k bars and a final `#`: 4k + 5 characters. */
  lemma StemLineShape(level: nat)
    ensures var line := StemLine(level);
      |line| == 4 * level + 5
      && Column(line, 0) == Blank
      && (forall j :: 1 <= j <= level ==> Column(line, j) == Bar)
      && line[4 * level + 4] == '#'
  {
    LeadInIsBlank();
    BlankThenColumns(Bar, level, "#");
  }

  /** A node's own sibling status shows on its label line exactly when the node is at level 2 or deeper. */
  lemma LabelShowsOwnStatus(level: nat, content: string)
    ensures LabelLine(level, true, content) == LabelLine(level, false, content) <==> level <= 1
  {
    if level >= 2 {
      LabelLineShape(level, true, content);
      LabelLineShape(level, false, content);
      assert Column(LabelLine(level, true, content), 1) == Bar;
      assert Column(LabelLine(level, false, content), 1) == Blank;
    }
  }

  /**
   * The stem lines above a child line up with the child's label line (the stem
   * is a prefix of it) exactly when the child has a right sibling or the parent
   * is the root.
   */
  lemma StemAlignsWithLabel(level: nat, hasRight: bool, content: string)
    ensures StemLine(level) <= LabelLine(level + 1, hasRight, content) <==> hasRight || level == 0
  {
    if hasRight || level == 0 {
      StemPrefixOfLabel(level, hasRight, content);
    } else {
      StemMissesLabel(level, content);
    }
  }

  lemma StemPrefixOfLabel(level: nat, hasRight: bool, content: string)
    requires hasRight || level == 0
    ensures LabelLine(level + 1, hasRight, content) == StemLine(level) + ("#### " + content)
  {
    LeadInIsBlank();
    LabelLineParts(level + 1, hasRight, content);
    assert Repeat(Fragment(hasRight), level) == Repeat(Bar, level);
  }

  lemma StemMissesLabel(level: nat, content: string)
    requires level >= 1
    ensures StemLine(level)[4] == '#' && LabelLine(level + 1, false, content)[4] == ' '
  {
    StemBarAtFour(level);
    BlankLabelAtFour(level + 1, content);
  }

  lemma StemBarAtFour(level: nat)
    requires level >= 1
    ensures |StemLine(level)| > 4 && StemLine(level)[4] == '#'
  {
    var line := StemLine(level);
    StemLineShape(level);
    assert line[4] == Column(line, 1)[0];
  }

  lemma BlankLabelAtFour(level: nat, content: string)
    requires level >= 2
    ensures |LabelLine(level, false, content)| > 4 && LabelLine(level, false, content)[4] == ' '
  {
    var line := LabelLine(level, false, content);
    LabelLineShape(level, false, content);
    assert line[4] == Column(line, 1)[0];
  }

  // ---------------------------------------------------------------------
  // The whole output
  // ---------------------------------------------------------------------

  lemma TextsAppend(a: seq<Line>, b: seq<Line>)
    ensures Texts(a + b) == Texts(a) + Texts(b)
  {
  }

  /**
   * The output of a node, after whatever `prefix` was printed before it: its
   * label line, then what the loop over its children prints.
   */
  lemma RenderUnfolds(prefix: seq<string>, t: Tree, level: nat, hasRight: bool)
    ensures prefix + [LabelLine(level, hasRight, t.content)] + Texts(ChildBlocks(t, level, |t.children|))
         == prefix + Render(t, level, hasRight)
    ensures prefix + [LabelLine(level, hasRight, t.content)] + Texts(ChildBlocks(t, level, 0))
         == prefix + [LabelLine(level, hasRight, t.content)]
  {
    var head := [Label(level, hasRight, t.content)];
    var rest := Texts(ChildBlocks(t, level, |t.children|));
    TextsAppend(head, ChildBlocks(t, level, |t.children|));
    assert |Texts(head)| == 1 && Texts(head)[0] == Text(head[0]);
    assert Texts(head) == [LabelLine(level, hasRight, t.content)];
    assert prefix + [LabelLine(level, hasRight, t.content)] + rest
        == prefix + ([LabelLine(level, hasRight, t.content)] + rest);
    assert Texts(ChildBlocks(t, level, 0)) == [];
  }

  /** Round `i` of the children loop prints the stem block and then the child's own lines. */
  lemma TextsOfNextChild(prefix: seq<string>, t: Tree, level: nat, i: nat)
    requires i < |t.children|
    ensures prefix + Texts(ChildBlocks(t, level, i)) + Texts(StemBlock(level))
            + Render(t.children[i], level + 1, i != |t.children| - 1)
         == prefix + Texts(ChildBlocks(t, level, i + 1))
  {
    var blocks := ChildBlocks(t, level, i);
    var childLines := Layout(t.children[i], level + 1, i != |t.children| - 1);
    assert ChildBlocks(t, level, i + 1) == blocks + StemBlock(level) + childLines;
    TextsAppend(blocks, StemBlock(level));
    TextsAppend(blocks + StemBlock(level), childLines);
    AppendAssociates(prefix, Texts(blocks), Texts(StemBlock(level)), Texts(childLines));
  }

  lemma AppendAssociates<T>(p: seq<T>, x: seq<T>, y: seq<T>, z: seq<T>)
    ensures p + x + y + z == p + (x + y + z)
  {
  }

  /** The four stem lines, spelled out. */
  lemma TextsOfStemBlock(prefix: seq<string>, level: nat)
    ensures prefix + seq(StemRepeat, _ => StemLine(level)) == prefix + Texts(StemBlock(level))
  {
    assert seq(StemRepeat, _ => StemLine(level)) == Texts(StemBlock(level));
  }

  lemma {:induction false} LabelsAppend(a: seq<Line>, b: seq<Line>)
    ensures Labels(a + b) == Labels(a) + Labels(b)
    decreases |b|
  {
    if b == [] {
      assert a + b == a;
    } else {
      var b' := b[..|b| - 1];
      assert (a + b)[..|a + b| - 1] == a + b';
      LabelsAppend(a, b');
    }
  }

  lemma {:induction false} LabelsOfStems(ls: seq<Line>)
    requires forall i :: 0 <= i < |ls| ==> ls[i].Stem?
    ensures Labels(ls) == []
  {
    if ls != [] {
      LabelsOfStems(ls[..|ls| - 1]);
    }
  }

  /**
   * A tree of N nodes prints N label lines and 4(N-1) stem lines: 5N-4 lines
   * in all, the first being the node's own label line.
   */
  lemma {:induction false} LayoutLength(t: Tree, level: nat, hasRight: bool)
    ensures |Layout(t, level, hasRight)| == 5 * Size(t) - 4
    ensures |Render(t, level, hasRight)| == 5 * Size(t) - 4
    decreases t, |t.children| + 1
  {
    ChildBlocksLength(t, level, |t.children|);
  }

  lemma {:induction false} ChildBlocksLength(t: Tree, level: nat, k: nat)
    requires k <= |t.children|
    ensures |ChildBlocks(t, level, k)| == 5 * ForestSize(t, k)
    decreases t, k
  {
    if k > 0 {
      ChildBlocksLength(t, level, k - 1);
      LayoutLength(t.children[k - 1], level + 1, k - 1 != |t.children| - 1);
    }
  }

  /** A leaf prints its label line and nothing else; a node with children prints more. */
  lemma LeafPrintsOneLine(t: Tree, level: nat, hasRight: bool)
    ensures Render(t, level, hasRight) == [LabelLine(level, hasRight, t.content)] <==> t.children == []
  {
    if t.children == [] {
      RenderUnfolds([], t, level, hasRight);
    } else {
      LayoutLength(t, level, hasRight);
      assert Size(t) >= 2;
    }
  }

  /**
   * Removing the stem lines leaves exactly one label line per node, in
   * pre-order, each child one level deeper than its parent.
   */
  lemma {:induction false} LabelsArePreOrder(t: Tree, level: nat, hasRight: bool)
    ensures Labels(Layout(t, level, hasRight)) == PreOrder(t, level, hasRight)
    ensures |Labels(Layout(t, level, hasRight))| == Size(t)
    decreases t, |t.children| + 1
  {
    var head := [Label(level, hasRight, t.content)];
    LabelsOfChildBlocks(t, level, |t.children|);
    LabelsAppend(head, ChildBlocks(t, level, |t.children|));
    assert Labels(head) == Labels([]) + head;
  }

  lemma {:induction false} LabelsOfChildBlocks(t: Tree, level: nat, k: nat)
    requires k <= |t.children|
    ensures Labels(ChildBlocks(t, level, k)) == PreOrderChildren(t, level, k)
    decreases t, k
  {
    if k > 0 {
      var child := t.children[k - 1];
      var f := k - 1 != |t.children| - 1;
      var before := ChildBlocks(t, level, k - 1);
      var sb := StemBlock(level);
      var lc := Layout(child, level + 1, f);
      assert ChildBlocks(t, level, k) == before + sb + lc;
      LabelsOfChildBlocks(t, level, k - 1);
      LabelsArePreOrder(child, level + 1, f);
      LabelsOfStems(sb);
      LabelsAppend(before, sb);
      LabelsAppend(before + sb, lc);
      assert Labels(before + sb) == Labels(before);
      assert PreOrderChildren(t, level, k) == PreOrderChildren(t, level, k - 1) + PreOrder(child, level + 1, f);
    }
  }

  lemma StemmedConcat(a: seq<Line>, level: nat, b: seq<Line>)
    requires StemmedLabels(a) && StemmedLabels(b)
    requires |b| > 0 && b[0].Label? && b[0].level == level + 1
    ensures StemmedLabels(a + StemBlock(level) + b)
  {
    var w := a + StemBlock(level) + b;
    assert forall k :: |a| <= k < |a| + StemRepeat ==> w[k].Stem?;
    forall i | 0 < i < |w| && w[i].Label?
      ensures StemRepeat <= i && 1 <= w[i].level && w[i - StemRepeat .. i] == StemBlock(w[i].level - 1)
    {
      if i < |a| {
        assert w[i] == a[i];
        assert w[i - StemRepeat .. i] == a[i - StemRepeat .. i];
      } else if i < |a| + StemRepeat {
        assert false;
      } else {
        var j := i - |a| - StemRepeat;
        assert w[i] == b[j];
        if j == 0 {
          assert w[i - StemRepeat .. i] == StemBlock(level);
        } else {
          assert w[i - StemRepeat .. i] == b[j - StemRepeat .. j];
        }
      }
    }
  }

  /**
   * The output starts with the node's own label line, and every later label
   * line is directly preceded by four identical stem lines of its parent's
   * level.
   */
  lemma {:induction false} StemsBeforeLabels(t: Tree, level: nat, hasRight: bool)
    ensures Layout(t, level, hasRight)[0] == Label(level, hasRight, t.content)
    ensures StemmedLabels(Layout(t, level, hasRight))
    decreases t, |t.children| + 1
  {
    StemsBeforeChildLabels(t, level, hasRight, |t.children|);
  }

  lemma {:induction false} StemsBeforeChildLabels(t: Tree, level: nat, hasRight: bool, k: nat)
    requires k <= |t.children|
    ensures StemmedLabels([Label(level, hasRight, t.content)] + ChildBlocks(t, level, k))
    decreases t, k
  {
    var head := [Label(level, hasRight, t.content)];
    if k == 0 {
      assert head + ChildBlocks(t, level, k) == head;
    } else {
      var child := t.children[k - 1];
      var f := k - 1 != |t.children| - 1;
      StemsBeforeChildLabels(t, level, hasRight, k - 1);
      StemsBeforeLabels(child, level + 1, f);
      StemmedConcat(head + ChildBlocks(t, level, k - 1), level, Layout(child, level + 1, f));
      assert head + ChildBlocks(t, level, k)
          == head + ChildBlocks(t, level, k - 1) + StemBlock(level) + Layout(child, level + 1, f);
    }
  }

  /**
   * A node's own sibling status changes only its own label line, and changes
   * it exactly when the node is at level 2 or deeper; in particular the root's
   * status never shows.
   */
  lemma OwnStatusOnlyInOwnLabel(t: Tree, level: nat)
    ensures |Render(t, level, true)| == |Render(t, level, false)| >= 1
    ensures Render(t, level, true)[1..] == Render(t, level, false)[1..]
    ensures Render(t, level, true) == Render(t, level, false) <==> level <= 1
  {
    var rest := ChildBlocks(t, level, |t.children|);
    TextsAppend([Label(level, true, t.content)], rest);
    TextsAppend([Label(level, false, t.content)], rest);
    LabelShowsOwnStatus(level, t.content);
    if level >= 2 {
      assert Render(t, level, true)[0] != Render(t, level, false)[0];
    }
  }

  /**
   * The scenario with a root, a first child with one grandchild and a second
   * child: the grandchild is an only child, so its label line has a blank
   * column 1 although its parent has a right sibling and the stem lines just
   * above it draw a bar in that column.
   */
  lemma UnbalancedExample()
    ensures var g := Node("g", []);
      var root := Node("root", [Node("child1", [g]), Node("child2", [])]);
      var s0, s1 := Stem(0), Stem(1);
      Layout(root, 0, false)
        == [Label(0, false, "root"), s0, s0, s0, s0, Label(1, true, "child1"), s1, s1, s1, s1,
            Label(2, false, "g"), s0, s0, s0, s0, Label(1, false, "child2")]
    ensures Text(Stem(1)) == "    #   #"
    ensures Text(Label(2, false, "g")) == "        ##### g"
  {
    ExampleLayout();
    ExampleStemText();
    ExampleLabelText();
  }

  lemma ExampleLayout()
    ensures var g := Node("g", []);
      var root := Node("root", [Node("child1", [g]), Node("child2", [])]);
      var s0, s1 := Stem(0), Stem(1);
      Layout(root, 0, false)
        == [Label(0, false, "root"), s0, s0, s0, s0, Label(1, true, "child1"), s1, s1, s1, s1,
            Label(2, false, "g"), s0, s0, s0, s0, Label(1, false, "child2")]
  {
    var g := Node("g", []);
    var c1 := Node("child1", [g]);
    var c2 := Node("child2", []);
    var root := Node("root", [c1, c2]);
    var s0, s1 := Stem(0), Stem(1);
    assert StemBlock(0) == [s0, s0, s0, s0];
    assert StemBlock(1) == [s1, s1, s1, s1];
    assert ChildBlocks(c1, 1, 1) == ChildBlocks(c1, 1, 0) + StemBlock(1) + Layout(g, 2, false);
    assert Layout(c1, 1, true) == [Label(1, true, "child1")] + StemBlock(1) + [Label(2, false, "g")];
    assert ChildBlocks(root, 0, 1) == ChildBlocks(root, 0, 0) + StemBlock(0) + Layout(c1, 1, true);
    assert ChildBlocks(root, 0, 2) == ChildBlocks(root, 0, 1) + StemBlock(0) + Layout(c2, 1, false);
  }

  lemma ExampleStemText()
    ensures Text(Stem(1)) == "    #   #"
  {
    LeadInIsBlank();
    assert Repeat(Bar, 1) == Bar;
  }

  lemma ExampleLabelText()
    ensures Text(Label(2, false, "g")) == "        ##### g"
  {
    ExampleLabelParts();
    LabelOfGSpelled();
  }

  lemma LabelOfGSpelled()
    ensures Blank + Blank + (Marker + " " + "g") == "        ##### g"
  {
    assert Blank + Blank == "        ";
    assert Marker + " " + "g" == "##### g";
  }

  lemma ExampleLabelParts()
    ensures Text(Label(2, false, "g")) == Blank + Blank + (Marker + " " + "g")
  {
    LabelLineParts(2, false, "g");
    assert Repeat(Blank, 1) == Blank;
  }
}
