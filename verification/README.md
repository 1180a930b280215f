# PrintTree printer, modelled in Dafny

PrintTree draws an in-memory tree as ASCII art on standard output. `Print(root, parent, getChildren, getNodeContent)` calls `printNode` at level 0. `printNode` prints one label line for its node. Then, for each child in order, it prints four stem lines and recurses one level deeper. `hasRightSibling` says whether a node is not the last child of its parent, and `lpad` builds the four-space lead-in.

The project has three modules:

- `Strings` (strings.dfy) holds `strings.Repeat` and `lpad`.
- `TreeLayout` (layout.dfy) describes the output as functions of the tree:
  - the label line and stem line of each level;
  - `Layout`, the sequence of `Line`s in print order;
  - `Render`, the same lines spelled out as strings.
  It also holds the lemmas about the output.
- `Printer` (printer.dfy) is the program as it runs:
  - `HasRightSibling`;
  - the two loops that build the branch strings;
  - `PrintNode` and `Print`.
  Printing appends lines to a `Console` object, which stands for standard output. `PrintNode` is proved to print exactly `Render` of its subtree. `Print` prints `Render(root, 0, false)`, or nothing when the parent's children slice is empty. The two loops are proved to build `HorizontalBranchLine` and `VerticalBranchesLine`.

Three facts about print/print.go shape the whole output:

- A label line below the root ends in the marker `"#####"`, a space and the content. The root's line is `" " + content`.
- Every column fragment on a label line is chosen by the node's own sibling status (print/print.go:29-33). It is `"#   "` when the node has a right sibling and `"    "` otherwise. No ancestor's status is consulted.
- The four stem lines before each child are printed by the parent. They are `"    " + "#   "×level + "#"` and depend on the level only.

`UnbalancedExample` shows one consequence. A grandchild that is an only child gets a blank column under a vertical bar that its parent's stem lines draw.

## Model

| member | source | states |
|---|---|---|
| Strings.Repeat | print/print.go:59 | `strings.Repeat(s, n)`: n copies of `s`, defined by recursion on n; characterised by RepeatLength and RepeatBlock |
| Strings.Lpad | print/print.go:58-60 | `lpad(s, padChar, n)`: n copies of `padChar` in front of `s`; characterised by LpadShape |
| Strings.RepeatLength | print/print.go:58-60 | `strings.Repeat(s, n)` is n times as long as `s` |
| Strings.RepeatBlock | print/print.go:58-60 | for every j < n, the j-th block of `Repeat(s, n)` as long as `s` is `s` itself |
| Strings.LpadShape | print/print.go:58-60 | with a one-character pad, `lpad(s, c, n)` is n copies of c followed by `s` unchanged, n characters longer than `s` |
| Printer.HasRightSibling | print/print.go:62-71 | a nil parent gives false; an empty children slice gives the index-out-of-range failure, and only that case does; otherwise true exactly when the node is not the last child |
| Printer.HasRightSiblingByIndex | print/print.go:62-71 | when no child occurs twice, child i has a right sibling exactly when i is not the last index, which is the test the recursion uses |
| Printer.RepeatedLastChild | print/print.go:67-69 | when the last child also occurs earlier, that earlier copy is reported as having no right sibling (identity, not position, decides) |
| TreeLayout.HorizontalBranchLine | print/print.go:18-35 | the value `horizontalBranchLine` reaches: empty at level 0, otherwise the lead-in, level-1 fragments of the node's own status and the marker; characterised by RootLabelLine and LabelLineShape |
| TreeLayout.LabelLine | print/print.go:37-38 | the line printed for a node: `horizontalBranchLine + " " + content`; characterised by RootLabelLine and LabelLineShape |
| TreeLayout.VerticalBranchesLine | print/print.go:46-49 | the value `verticalBranchesLine` reaches: the lead-in and one bar per level of the parent; characterised by StemLineShape |
| TreeLayout.StemLine | print/print.go:50-52 | the stem line printed four times before each child: `verticalBranchesLine + "#"`; characterised by StemLineShape |
| TreeLayout.Layout | print/print.go:14-56 | the lines `printNode` prints, in order: always at least one, and the first is the node's own label line; the rest are the children's blocks |
| TreeLayout.ChildBlocks | print/print.go:45-55 | what the first k rounds of the children loop print: per child, four stem lines of the parent's level, then the child's own lines one level deeper, flagged as having a right sibling unless it is the last child; characterised by LayoutLength, LabelsArePreOrder and StemsBeforeLabels |
| TreeLayout.Render | print/print.go:14-56 | the printed lines as strings: never empty, and the first is the node's own label line |
| Printer.BuildHorizontalBranchLine | print/print.go:18-35 | the loop builds the padding, level-1 fragments of the node's own status and the `#####` marker; empty at level 0 |
| Printer.BuildVerticalBranchesLine | print/print.go:46-49 | the loop builds the lead-in followed by `level` bars |
| TreeLayout.RootLabelLine | print/print.go:18-38 | at level 0 the label line is exactly `" " + content` |
| TreeLayout.LabelLineShape | print/print.go:18-38 | at level k ≥ 1 the label line is 4 spaces, k-1 equal fragments of the node's own status, `#####`, then `" " + content`; it is 4k + 6 characters longer than the content |
| TreeLayout.LabelShowsOwnStatus | print/print.go:16-33 | the node's own sibling status changes its label line if and only if the level is 2 or more |
| TreeLayout.StemLineShape | print/print.go:46-51 | a stem line at level k is 4 spaces, k bars `#   ` and a final `#`, 4k + 5 characters; it depends on nothing but k |
| TreeLayout.StemAlignsWithLabel | print/print.go:29-51 | the stem lines above a child are a prefix of the child's label line if and only if the child has a right sibling or the parent is the root |
| Printer.Console.Println | print/print.go:38 | printing a line appends it to the output |
| Printer.PrintStems | print/print.go:46-52 | one round of the children loop before the recursive call prints exactly four identical stem lines of the parent's level |
| Printer.PrintNode | print/print.go:14-56 | printing a node appends exactly `Render` of its subtree: its label line, then each child's stem block and output in order |
| Printer.Print | print/print.go:10-12 | with a parent whose children are empty the call fails before anything is printed; otherwise it prints `Render(root, 0, false)`, and the root's own sibling status does not show |
| TreeLayout.LayoutLength | print/print.go:37-55 | a tree of N nodes prints 5N-4 lines |
| TreeLayout.LeafPrintsOneLine | print/print.go:37-43 | the output is the node's label line alone if and only if the node has no children |
| TreeLayout.LabelsArePreOrder | print/print.go:38-55 | with the stem lines removed, the output is exactly one label line per node in pre-order, each child one level deeper (N label lines) |
| TreeLayout.PreOrder | print/print.go:38-55 | reference pre-order enumeration: one entry per node, none shallower than the starting level |
| TreeLayout.StemsBeforeLabels | print/print.go:38-55 | the output starts with the node's own label line, and every later label line comes directly after four stem lines of its parent's level |
| TreeLayout.OwnStatusOnlyInOwnLabel | print/print.go:10-33 | a node's own sibling status changes only the first line of its output, and changes it if and only if the level is 2 or more |
| TreeLayout.UnbalancedExample | print/print.go:14-56 | for root → {child1 → {g}, child2}, the exact line sequence; the stem above g reads `    #   #` while g's own line reads `        ##### g` |

## Left out

- Standard output: `fmt.Println` is modelled as appending to `Console.lines`. Nothing is written anywhere. A line is one `fmt.Println` call; a newline inside a node's content is not split, so such content gives more physical lines than the 5N-4 of `LayoutLength`.
- Go generics and the `getChildren` / `getNodeContent` callbacks are replaced by the `Tree` datatype. The callbacks are taken to be pure and to return the same children on every call.
- Pointer identity: `HasRightSibling` is generic over any type with equality, which stands for pointer comparison. The recursion in `PrintNode` passes the index test. `HasRightSiblingByIndex` shows that the two agree when no pointer occurs twice among a node's children, and `RepeatedLastChild` shows how they differ otherwise. The model of `PrintNode` assumes distinct children. `Print` applies `HasRightSibling` to `Tree` values, whose equality is structural: a root structurally equal to, but a different pointer from, the parent's last child gets false here and true in Go. The output is the same either way, because `OwnStatusOnlyInOwnLabel` shows the flag never shows at level 0.
- Printer.PrintNode: it takes the node's sibling status as a flag rather than computing it from the parent. For the root, `Print` computes the flag with `HasRightSibling`, including the failure on an empty children slice. For children, `HasRightSiblingByIndex` gives the flag.
- A nil root, and the failure of a callback, are not modelled. The `Tree` value always exists.
- Recursion depth and stack exhaustion are host limits and are not modelled.
- print/print_test.go is not part of this model. It compares against the fixture `print_test_expected.txt` (print/print_test.go:23), which this model does not use, and it calls a `Format` function that print.go does not define.
- cmd/cli/main.go is not part of this model. It only builds a sample tree and calls `Print` with a nil parent, which is `Print(console, root, None)` here.
- A form of the printer that returns one newline-joined string does not exist in print.go and is not modelled. `Render` is the sequence of printed lines.
