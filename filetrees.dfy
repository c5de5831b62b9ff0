/**
 * The notebook's file tree (`render_file_tree` in `renderer.rs`): the folder the server
 * runs in, listed recursively as files with their full paths and folders with their
 * subtrees. The directory listing the operating system gives is a parameter.
 */
module FileTrees {
  import opened Fs

  /** One entry of a directory listing, in the order the listing gives it. */
  datatype Node =
    | FileNode(name: string)
    | DirNode(name: string, entries: seq<Node>)

  /** `FileTree`, as the client receives it. */
  datatype FileTree =
    | File(name: string, path: string)
    | Folder(name: string, subtree: seq<FileTree>)

  /** The tree `recurse_directorys` builds for the listing `entries` of folder `dir`. */
  function TreeOf(dir: string, entries: seq<Node>): seq<FileTree>
    decreases entries
  {
    if entries == [] then []
    else
      var n := entries[|entries| - 1];
      TreeOf(dir, entries[..|entries| - 1]) +
        [if n.FileNode? then File(n.name, Join(dir, n.name)) else Folder(n.name, TreeOf(Join(dir, n.name), n.entries))]
  }

  /** The listing a tree shows: the tree with the paths taken out. */
  function Listing(tree: seq<FileTree>): seq<Node>
    decreases tree
  {
    if tree == [] then []
    else
      var t := tree[|tree| - 1];
      Listing(tree[..|tree| - 1]) + [if t.File? then FileNode(t.name) else DirNode(t.name, Listing(t.subtree))]
  }

  /**
   * The tree has one entry per listed entry, in the listing's order, with the same name;
   * a folder for each directory, holding the tree of that directory; and a file for each
   * other entry, with its path joined onto the folder's.
   */
  lemma {:induction false} TreeShape(dir: string, entries: seq<Node>)
    ensures |TreeOf(dir, entries)| == |entries|
    ensures forall i :: 0 <= i < |entries| ==>
      && TreeOf(dir, entries)[i].name == entries[i].name
      && (TreeOf(dir, entries)[i].Folder? <==> entries[i].DirNode?)
      && (entries[i].FileNode? ==> TreeOf(dir, entries)[i].path == Join(dir, entries[i].name))
      && (entries[i].DirNode? ==> TreeOf(dir, entries)[i].subtree == TreeOf(Join(dir, entries[i].name), entries[i].entries))
  {
    if entries != [] {
      TreeShape(dir, entries[..|entries| - 1]);
    }
  }

  /** The tree loses nothing of the listing: taking the paths out gives the listing back. */
  lemma {:induction false} TreeListing(dir: string, entries: seq<Node>)
    ensures Listing(TreeOf(dir, entries)) == entries
    decreases entries
  {
    if entries != [] {
      var init := entries[..|entries| - 1];
      var n := entries[|entries| - 1];
      TreeListing(dir, init);
      if n.DirNode? {
        TreeListing(Join(dir, n.name), n.entries);
      }
      ListingSnoc(TreeOf(dir, init), if n.FileNode? then File(n.name, Join(dir, n.name)) else Folder(n.name, TreeOf(Join(dir, n.name), n.entries)));
      SplitLast(entries);
    }
  }

  lemma SplitLast<T>(s: seq<T>)
    requires s != []
    ensures s[..|s| - 1] + [s[|s| - 1]] == s
  {
  }

  lemma ListingSnoc(tree: seq<FileTree>, t: FileTree)
    ensures Listing(tree + [t]) == Listing(tree) + [if t.File? then FileNode(t.name) else DirNode(t.name, Listing(t.subtree))]
  {
    assert (tree + [t])[..|tree|] == tree;
  }

  /** `recurse_directorys`: list folder `dir`, going into every subfolder. */
  method RecurseDirectories(dir: string, entries: seq<Node>) returns (tree: seq<FileTree>)
    ensures tree == TreeOf(dir, entries)
    decreases entries
  {
    tree := [];
    for i := 0 to |entries|
      invariant tree == TreeOf(dir, entries[..i])
    {
      var path := entries[i];
      assert entries[..i + 1][..i] == entries[..i];
      if path.DirNode? {
        var subtree := RecurseDirectories(Join(dir, path.name), path.entries);
        tree := tree + [Folder(path.name, subtree)];
      } else {
        tree := tree + [File(path.name, Join(dir, path.name))];
      }
    }
    assert entries[..|entries|] == entries;
  }

  /** `render_file_tree`: the tree of the current directory. */
  method RenderFileTree(currentDir: string, listing: seq<Node>) returns (tree: seq<FileTree>)
    ensures tree == TreeOf(currentDir, listing)
    ensures |tree| == |listing| && Listing(tree) == listing
    ensures forall i :: 0 <= i < |listing| && listing[i].FileNode? ==> tree[i] == File(listing[i].name, Join(currentDir, listing[i].name))
  {
    tree := RecurseDirectories(currentDir, listing);
    TreeShape(currentDir, listing);
    TreeListing(currentDir, listing);
  }
}
