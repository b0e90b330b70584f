/** What the directory sync does to the target's entries, and what it reports. */
module DiffModel {
  import opened Prelude
  import opened Strings
  import opened FileTree

  type Kids = map<string, Tree>

  datatype Diff = Diff(addedFiles: seq<Path>, deletedFiles: seq<Path>, updatedFiles: seq<Path>,
                       addedDirs: seq<Path>, deletedDirs: seq<Path>)
  {
    predicate IsEmpty() {
      |addedFiles| == 0 && |deletedFiles| == 0 && |updatedFiles| == 0 && |addedDirs| == 0 && |deletedDirs| == 0
    }

    function Plus(d: Diff): Diff {
      Diff(addedFiles + d.addedFiles, deletedFiles + d.deletedFiles, updatedFiles + d.updatedFiles,
           addedDirs + d.addedDirs, deletedDirs + d.deletedDirs)
    }
  }

  const NOTHING := Diff([], [], [], [], [])

  /** Change status computed beforehand; without it contents are compared. */
  type Status = Option<map<Path, bool>>

  predicate Hidden(n: string) {
    n == "" || n == "." || n == ".." || (n[0] == '.' && n != ".abstract.md" && n != ".overview.md")
  }

  function Files(kids: Kids): set<string> {
    set n | n in kids && !Hidden(n) && kids[n].File?
  }

  function Dirs(kids: Kids): set<string> {
    set n | n in kids && !Hidden(n) && kids[n].Dir?
  }

  predicate Changed(status: Status, uri: Path, source: string, target: string) {
    match status
    case None => source != target
    case Some(m) => uri in m && m[uri]
  }

  /** One name of the file loop: the target entries afterwards. */
  function FileStep(status: Status, r: Path, rk: Kids, tk: Kids, cur: Kids, n: string): Kids {
    if n in Files(rk) then
      if n in Files(tk) && !Changed(status, r + [n], rk[n].content, tk[n].content) then cur else cur[n := rk[n]]
    else if n in Files(tk) then cur - {n}
    else cur
  }

  function FileDiff(status: Status, r: Path, s: Path, rk: Kids, tk: Kids, n: string): Diff {
    if n in Files(rk) then
      if n in Dirs(tk) then Diff([r + [n]], [], [], [], [s + [n]])
      else if n in Files(tk) then
        if Changed(status, r + [n], rk[n].content, tk[n].content) then Diff([], [], [r + [n]], [], []) else NOTHING
      else Diff([r + [n]], [], [], [], [])
    else if n in Files(tk) then Diff([], [s + [n]], [], [], [])
    else NOTHING
  }

  function FilesFold(status: Status, r: Path, rk: Kids, tk: Kids, names: seq<string>): Kids {
    if names == [] then tk
    else
      var last := |names| - 1;
      FileStep(status, r, rk, tk, FilesFold(status, r, rk, tk, names[..last]), names[last])
  }

  function FilesDiff(status: Status, r: Path, s: Path, rk: Kids, tk: Kids, names: seq<string>): Diff {
    if names == [] then NOTHING
    else
      var last := |names| - 1;
      FilesDiff(status, r, s, rk, tk, names[..last]).Plus(FileDiff(status, r, s, rk, tk, names[last]))
  }

  /** The directory loop sees the target directories that the file loop has not removed. */
  function DirNames(rk: Kids, tk: Kids): set<string> {
    Dirs(rk) + (Dirs(tk) - Files(rk))
  }

  ghost function DirStep(status: Status, r: Path, rk: Kids, tk: Kids, cur: Kids, n: string): Kids
    decreases Dir(rk), 0
  {
    if n in Dirs(rk) then
      if n in Dirs(tk) then cur[n := Dir(SyncKids(status, r + [n], rk[n].kids, tk[n].kids))] else cur[n := rk[n]]
    else cur - {n}
  }

  /** A file that made way for a directory is reported by both loops. */
  ghost function DirDiff(status: Status, r: Path, s: Path, rk: Kids, tk: Kids, n: string): Diff
    decreases Dir(rk), 0
  {
    if n in Dirs(rk) then
      if n in Dirs(tk) then SyncDiff(status, r + [n], s + [n], rk[n].kids, tk[n].kids)
      else Diff([], if n in Files(tk) then [s + [n]] else [], [], [r + [n]], [])
    else Diff([], [], [], [], [s + [n]])
  }

  ghost function DirsFold(status: Status, r: Path, rk: Kids, tk: Kids, cur: Kids, names: seq<string>): Kids
    decreases Dir(rk), 1, |names|
  {
    if names == [] then cur
    else
      var last := |names| - 1;
      DirStep(status, r, rk, tk, DirsFold(status, r, rk, tk, cur, names[..last]), names[last])
  }

  ghost function DirsDiff(status: Status, r: Path, s: Path, rk: Kids, tk: Kids, names: seq<string>): Diff
    decreases Dir(rk), 1, |names|
  {
    if names == [] then NOTHING
    else
      var last := |names| - 1;
      DirsDiff(status, r, s, rk, tk, names[..last]).Plus(DirDiff(status, r, s, rk, tk, names[last]))
  }

  /** The entries of the target directory after the sync. */
  ghost function SyncKids(status: Status, r: Path, rk: Kids, tk: Kids): Kids
    decreases Dir(rk), 2
  {
    DirsFold(status, r, rk, tk, FilesFold(status, r, rk, tk, SortedNames(Files(rk) + Files(tk))),
             SortedNames(DirNames(rk, tk)))
  }

  ghost function SyncDiff(status: Status, r: Path, s: Path, rk: Kids, tk: Kids): Diff
    decreases Dir(rk), 2
  {
    FilesDiff(status, r, s, rk, tk, SortedNames(Files(rk) + Files(tk))).Plus(
      DirsDiff(status, r, s, rk, tk, SortedNames(DirNames(rk, tk))))
  }

  // ----- The visible tree -----

  function Visible(t: Tree): Tree {
    match t
    case File(_) => t
    case Dir(kids) => Dir(map n | n in kids && !Hidden(n) :: Visible(kids[n]))
  }

  function VisibleKids(kids: Kids): Kids {
    map n | n in kids && !Hidden(n) :: Visible(kids[n])
  }
}
