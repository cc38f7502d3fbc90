/** The file manager window: a 600 x 450 window listing a fixed set of entries of
    `/home/user`, each drawn with a folder or a file icon. The window's drag handlers
    are a `DragControl.DragController` that listens only while a drag is in progress. */
module FileManagerWindow {
  import opened Geometry

  const FileManagerSize: Size := Size(600, 450)

  /** One listed entry; `kind` is the entry's `type` string. */
  datatype Entry = Entry(name: string, kind: string)

  const MockFiles: seq<Entry> := [
    Entry("Documents", "folder"),
    Entry("Downloads", "folder"),
    Entry("Pictures", "folder"),
    Entry("Music", "folder"),
    Entry("Videos", "folder"),
    Entry("readme.txt", "file"),
    Entry("notes.txt", "file"),
    Entry("config.json", "file")
  ]

  datatype Icon = FolderIcon | FileIcon

  /** The icon drawn for each entry, in listing order: the folder icon when the type
      is exactly `"folder"`, the file icon for anything else. */
  function Icons(files: seq<Entry>): (r: seq<Icon>)
    ensures |r| == |files|
    ensures forall i :: 0 <= i < |files| ==> (r[i] == FolderIcon <==> files[i].kind == "folder")
  {
    if files == [] then []
    else [if files[0].kind == "folder" then FolderIcon else FileIcon] + Icons(files[1..])
  }

  /** Icons of a concatenation are the concatenation of the icons. */
  lemma {:induction false} IconsAppend(a: seq<Entry>, b: seq<Entry>)
    ensures Icons(a + b) == Icons(a) + Icons(b)
  {
    if a != [] {
      assert (a + b)[1..] == a[1..] + b;
      IconsAppend(a[1..], b);
    }
  }

  /** The listing: eight entries, five folders followed by three files. */
  lemma ListingShape()
    ensures |MockFiles| == 8
    ensures Icons(MockFiles) == [FolderIcon, FolderIcon, FolderIcon, FolderIcon, FolderIcon,
                                 FileIcon, FileIcon, FileIcon]
  {
    var icons := Icons(MockFiles);
    assert icons[0] == FolderIcon && icons[1] == FolderIcon && icons[2] == FolderIcon;
    assert icons[3] == FolderIcon && icons[4] == FolderIcon;
    assert icons[5] == FileIcon && icons[6] == FileIcon && icons[7] == FileIcon;
  }

  /** The eight names are pairwise distinct (they are the list's keys). */
  lemma ListingNamesDistinct()
    ensures forall i, j :: 0 <= i < j < |MockFiles| ==> MockFiles[i].name != MockFiles[j].name
  {
    forall i, j | 0 <= i < j < |MockFiles|
      ensures MockFiles[i].name != MockFiles[j].name
    {
      var u, v := MockFiles[i].name, MockFiles[j].name;
      assert u[0] != v[0] || u[2] != v[2];
    }
  }

  /** The file manager is 600 x 450 at its position when windowed, and spans the
      viewport above the taskbar band when fullscreen. */
  lemma FileManagerLayout(position: Point, viewport: Size)
    ensures Layout(FileManagerSize, false, position, viewport) == Rect(position.x, position.y, 600, 450)
    ensures Layout(FileManagerSize, true, position, viewport) == Rect(0, 0, viewport.width, viewport.height - 48)
  {
  }
}
