/** Snapshot and rollback of the workspace (`_create_snapshot` and `_restore_snapshot` in
    src/mind3/core/driver.py). */
module Workspace {
  import RtlIdentity

  /** A file-system object below the workspace root; directory entries keep their listing order. */
  datatype Node = File(content: string) | Symlink(target: string) | Dir(entries: seq<Item>)
  datatype Item = Item(name: string, node: Node)

  /** Top-level entries of a directory by name. */
  type Tree = map<string, Node>

  const MIND := ".mind"

  /** Everything at the top level except the driver's own directory. */
  function Outside(ws: Tree): Tree { ws - {MIND} }

  /** `shutil.copytree(symlinks=True)` and `copy2`: a recursive copy. */
  function CopyNode(n: Node): Node {
    match n
    case File(content) => File(content)
    case Symlink(target) => Symlink(target)
    case Dir(entries) =>
      Dir(seq(|entries|, i requires 0 <= i < |entries| => Item(entries[i].name, CopyNode(entries[i].node))))
  }

  /** A copied tree is the tree, at every depth. */
  lemma {:induction false} CopyNodeSame(n: Node)
    ensures CopyNode(n) == n
  {
    match n
    case Dir(entries) =>
      forall i | 0 <= i < |entries| ensures CopyNode(entries[i].node) == entries[i].node {
        CopyNodeSame(entries[i].node);
      }
      assert CopyNode(n).entries == entries;
    case _ =>
  }

  /** Writes that leave the driver's own directory alone. */
  ghost predicate SameMind(a: Tree, b: Tree) {
    (MIND in a <==> MIND in b) && (MIND in a ==> a[MIND] == b[MIND])
  }

  /** The workspace after a rollback to `snapshot`. */
  function Restored(ws: Tree, snapshot: Tree): Tree {
    (map name | name in ws && name == MIND :: ws[name]) + snapshot
  }

  /** Rolling back undoes every change made outside the driver's directory since the snapshot. */
  lemma RollbackUndoes(before: Tree, now: Tree)
    ensures Outside(Restored(now, Outside(before))) == Outside(before)
    ensures SameMind(now, Restored(now, Outside(before)))
  {
  }

  /** A file the driver writes: a missing final newline is added. */
  function Terminated(content: string): string {
    if content != "" && content[|content| - 1] != '\n' then content + "\n" else content
  }

  function WriteFile(ws: Tree, name: string, content: string): Tree {
    ws[name := File(Terminated(content))]
  }

  /** A text read back with universal newlines: line feeds for every line end. */
  function ReadText(ws: Tree, name: string): string {
    if name in ws && ws[name].File? then RtlIdentity.LineFeeds(ws[name].content) else ""
  }
}
