/** Paths and files of the vault (vault-fs). A relative path is kept as its components; `Render` is its text. */
module Paths {
  import opened Common
  import opened Text
  import opened Documents

  /** A sealed file is read-only and immutable. */
  datatype File = File(content: bytes, isSealed: bool)

  type Files = map<Path, File>

  // ---------- path texts ----------

  predicate SlashFree(p: Path) {
    forall i :: 0 <= i < |p| ==> '/' !in p[i]
  }

  function Render(p: Path): string {
    if p == [] then ""
    else if |p| == 1 then p[0]
    else p[0] + "/" + Render(p[1..])
  }

  function SlashAt(s: string): (i: nat)
    ensures i <= |s|
  {
    if s == "" || s[0] == '/' then 0 else 1 + SlashAt(s[1..])
  }

  /** `split('/')` */
  function SplitSlash(s: string): Path
    decreases |s|
  {
    var i := SlashAt(s);
    if i == |s| then [s] else [s[..i]] + SplitSlash(s[i + 1..])
  }

  lemma {:induction false} SlashAtFirst(a: string, rest: string)
    requires '/' !in a
    ensures SlashAt(a + "/" + rest) == |a| && SlashAt(a) == |a|
  {
    if a != "" {
      assert (a + "/" + rest)[1..] == a[1..] + "/" + rest;
      SlashAtFirst(a[1..], rest);
    }
  }

  /** Splitting the text of a path gives its components back; so different paths have different texts. */
  lemma {:induction false} RenderRoundTrip(p: Path)
    requires p != [] && SlashFree(p)
    ensures SplitSlash(Render(p)) == p
  {
    if |p| == 1 {
      SlashAtFirst(p[0], "");
    } else {
      var rest := Render(p[1..]);
      SlashAtFirst(p[0], rest);
      RenderRoundTrip(p[1..]);
      var s := p[0] + "/" + rest;
      assert s[..|p[0]|] == p[0] && s[|p[0]| + 1..] == rest;
    }
  }

  // ---------- names ----------

  /** The library's `char::is_alphanumeric`; all that matters of it is that it refuses the separator. */
  type Alnum = f: char -> bool | !f('/') witness c => false

  function CleanChar(alnum: Alnum, c: char): char {
    if alnum(c) || c in " -_.()" then c else '_'
  }

  function SpaceToUnderscore(s: string): string {
    seq(|s|, i requires 0 <= i < |s| => if s[i] == ' ' then '_' else s[i])
  }

  /** `sanitize_component` */
  function SanitizeComponent(alnum: Alnum, s: string): string {
    var cleaned := SpaceToUnderscore(Trim(seq(|s|, i requires 0 <= i < |s| => CleanChar(alnum, s[i]))));
    if cleaned == "" || cleaned == "." || cleaned == ".." then "_" else cleaned
  }

  /** A name that stands for a file in its folder. */
  predicate GoodName(s: string) {
    s != "" && s != "." && s != ".." && '/' !in s
  }

  lemma {:induction false} TrimKeepsChars(s: string)
    ensures forall c :: c in TrimStart(s) ==> c in s
    ensures forall c :: c in TrimEnd(s) ==> c in s
  {
    if s != "" {
      TrimKeepsChars(s[1..]);
      TrimKeepsChars(s[..|s| - 1]);
    }
  }

  /** A sanitised component is a good name, whatever it was made from. */
  lemma SanitizedIsGood(alnum: Alnum, s: string)
    ensures GoodName(SanitizeComponent(alnum, s))
  {
    var mapped := seq(|s|, i requires 0 <= i < |s| => CleanChar(alnum, s[i]));
    assert '/' !in mapped;
    TrimKeepsChars(mapped);
    TrimKeepsChars(TrimStart(mapped));
    assert '/' !in Trim(mapped);
  }

  /** Is the character kept as it is? Letters and digits are, and the hyphen, the underscore, the dot and parentheses. */
  predicate Kept(alnum: Alnum, c: char) {
    c != ' ' && (alnum(c) || c == '-' || c == '_' || c == '.' || c == '(' || c == ')')
  }

  /** Position by position: what is kept, and an underscore for everything else. */
  predicate Underscored(alnum: Alnum, s: string, t: string) {
    |t| == |s| && forall i :: 0 <= i < |s| ==> t[i] == if Kept(alnum, s[i]) then s[i] else '_'
  }

  /** Without white space around it a name keeps its characters in their places, with underscores for those that are not
      kept; only what would be empty or a dot name becomes a single underscore. */
  lemma SanitizedKeepsCharacters(alnum: Alnum, s: string)
    requires Trimmed(s)
    ensures var t := SanitizeComponent(alnum, s); if s in {"", ".", ".."} then t == "_" else Underscored(alnum, s, t)
  {
    var mapped := seq(|s|, i requires 0 <= i < |s| => CleanChar(alnum, s[i]));
    assert s != "" ==> mapped[0] == CleanChar(alnum, s[0]) && mapped[|s| - 1] == CleanChar(alnum, s[|s| - 1]);
    TrimTrimmed(mapped);
    var cleaned := SpaceToUnderscore(mapped);
    assert Underscored(alnum, s, cleaned);
    DotNames(alnum, s, cleaned);
  }

  lemma DotNames(alnum: Alnum, s: string, t: string)
    requires Underscored(alnum, s, t)
    ensures t in {"", ".", ".."} <==> s in {"", ".", ".."}
  {
    assert t == ".." ==> t[0] == '.' && t[1] == '.' && s == [s[0], s[1]];
    assert t == "." ==> t[0] == '.' && s == [s[0]];
  }

  /** A good name of kept characters only, with no white space around it, is left as it is. */
  lemma GoodNamesAreLeft(alnum: Alnum, s: string)
    requires GoodName(s) && Trimmed(s) && forall i :: 0 <= i < |s| ==> Kept(alnum, s[i])
    ensures SanitizeComponent(alnum, s) == s
  {
    SanitizedKeepsCharacters(alnum, s);
  }

  /** Spaces around a name are dropped first. */
  lemma OuterSpacesAreDropped(alnum: Alnum, s: string)
    ensures SanitizeComponent(alnum, " " + s) == SanitizeComponent(alnum, s) == SanitizeComponent(alnum, s + " ")
  {
    var mapped := seq(|s|, i requires 0 <= i < |s| => CleanChar(alnum, s[i]));
    var before, after := " " + s, s + " ";
    assert seq(|before|, i requires 0 <= i < |before| => CleanChar(alnum, before[i])) == " " + mapped;
    assert seq(|after|, i requires 0 <= i < |after| => CleanChar(alnum, after[i])) == mapped + " ";
    TrimOuter(mapped);
  }

  lemma TrimOuter(s: string)
    ensures Trim(" " + s) == Trim(s) == Trim(s + " ")
  {
    assert (" " + s)[1..] == s;
    TrimStartSpace(s);
    assert (TrimStart(s) + " ")[..|TrimStart(s)|] == TrimStart(s);
  }

  lemma {:induction false} TrimStartSpace(s: string)
    ensures TrimStart(s + " ") == (if TrimStart(s) == "" then "" else TrimStart(s) + " ")
  {
    if s == "" {
      assert (s + " ")[1..] == "";
    } else {
      assert (s + " ")[1..] == s[1..] + " ";
      TrimStartSpace(s[1..]);
    }
  }

  /** Sanitising twice is sanitising once. */
  lemma SanitizedOnce(alnum: Alnum, s: string)
    ensures SanitizeComponent(alnum, SanitizeComponent(alnum, s)) == SanitizeComponent(alnum, s)
  {
    var t := SanitizeComponent(alnum, s);
    SanitizedIsPlain(alnum, s);
    SanitizedIsGood(alnum, s);
    SanitizedKeepsCharacters(alnum, t);
    assert SanitizeComponent(alnum, t) == t;
  }

  lemma SanitizedIsPlain(alnum: Alnum, s: string)
    ensures var t := SanitizeComponent(alnum, s); Trimmed(t) && forall i :: 0 <= i < |t| ==> Kept(alnum, t[i])
  {
    var mapped := seq(|s|, i requires 0 <= i < |s| => CleanChar(alnum, s[i]));
    TrimKeepsChars(mapped);
    TrimKeepsChars(TrimStart(mapped));
    TrimIsTrimmed(mapped);
    var trimmed := Trim(mapped);
    forall i | 0 <= i < |trimmed|
      ensures trimmed[i] == ' ' || Kept(alnum, trimmed[i])
    {
      assert trimmed[i] in trimmed;
      assert trimmed[i] in mapped;
      var k :| 0 <= k < |mapped| && mapped[k] == trimmed[i];
    }
  }

  lemma {:induction false} TrimIsTrimmed(s: string)
    ensures Trimmed(Trim(s))
  {
    TrimStartHead(s);
    TrimEndTail(TrimStart(s));
  }

  lemma {:induction false} TrimStartHead(s: string)
    ensures TrimStart(s) != "" ==> !IsWhitespace(TrimStart(s)[0])
  {
    if s != "" { TrimStartHead(s[1..]); }
  }

  lemma {:induction false} TrimEndTail(s: string)
    ensures TrimEnd(s) <= s
    ensures TrimEnd(s) != "" ==> !IsWhitespace(TrimEnd(s)[|TrimEnd(s)| - 1])
  {
    if s != "" { TrimEndTail(s[..|s| - 1]); }
  }

  // ---------- the places of the vault ----------

  /** `rel_path_for` */
  function RelPathFor(alnum: Alnum, author: string, category: Category, fileName: string): Path {
    [SanitizeComponent(alnum, author), DirName(category), SanitizeComponent(alnum, fileName)]
  }

  /** A document whose author and file name are good names of kept characters lies under just these names. */
  lemma PlaceNamesTheDocument(alnum: Alnum, author: string, category: Category, fileName: string)
    requires GoodName(author) && Trimmed(author) && forall i :: 0 <= i < |author| ==> Kept(alnum, author[i])
    requires GoodName(fileName) && Trimmed(fileName) && forall i :: 0 <= i < |fileName| ==> Kept(alnum, fileName[i])
    ensures RelPathFor(alnum, author, category, fileName) == [author, DirName(category), fileName]
  {
    GoodNamesAreLeft(alnum, author);
    GoodNamesAreLeft(alnum, fileName);
  }

  function StagingPath(name: string): Path {
    [".staging", name]
  }

  function TombstonePath(vaultId: string): Path {
    [".tombstones", "tombstone-" + vaultId + ".txt"]
  }

  function VersionName(vaultId: string, n: nat): string {
    vaultId + "_v" + ToDec(n)
  }

  /** Where a version of the document at `p` is kept: below the document's own folder. */
  function VersionPath(p: Path, vaultId: string, n: nat): Path {
    (if p == [] then [] else p[..|p| - 1]) + [".versiones", ".versions", VersionName(vaultId, n)]
  }

  function ReplaceLast(p: Path, name: string): Path {
    (if p == [] then [] else p[..|p| - 1]) + [name]
  }

  /** Does a file lie below this path? */
  predicate IsFolder(files: Files, p: Path) {
    exists q :: q in files && |p| < |q| && q[..|p|] == p
  }

  /** `exists()`: a file, a folder, or the folder's own names for itself and its parent. */
  predicate Exists(files: Files, p: Path) {
    p in files || IsFolder(files, p) || (p != [] && (p[|p| - 1] == "." || p[|p| - 1] == ".."))
  }

  /** Does a file stand where a parent folder would have to be created? */
  predicate ParentBlocked(files: Files, p: Path) {
    exists k :: 0 < k < |p| && p[..k] in files
  }

  /** The physical part of a rename or a move: unseal, create the parent, rename, seal.
      `accepts` is the operating system's verdict on the rename; a refusal comes after the unsealing. */
  function Relocate(files: Files, from: Path, to: Path, accepts: bool): (Files, bool) {
    if from !in files then (files, false)
    else if ParentBlocked(files, to) || !accepts then (files[from := files[from].(isSealed := false)], false)
    else ((files - {from})[to := File(files[from].content, true)], true)
  }

  lemma SameKeysBlock(a: Files, b: Files, p: Path)
    requires a.Keys == b.Keys
    ensures ParentBlocked(a, p) <==> ParentBlocked(b, p)
  {
    assert forall q :: q in a <==> q in b;
  }

  /** The files of a vault, changed step by step. */
  class Disk {
    var files: Files

    constructor ()
      ensures files == map[]
    {
      files := map[];
    }

    /** `seal_file` and `unseal_file` */
    method SetSealed(p: Path, isSealed: bool) returns (ok: bool)
      modifies this
      ensures ok <==> p in old(files)
      ensures files == if ok then old(files)[p := old(files)[p].(isSealed := isSealed)] else old(files)
    {
      ok := p in files;
      if ok { files := files[p := files[p].(isSealed := isSealed)]; }
    }

    method RemoveFile(p: Path)
      modifies this
      ensures files == old(files) - {p}
    {
      files := files - {p};
    }

    /** `std::fs::rename` when it is accepted. */
    method RenameFile(from: Path, to: Path)
      requires from in files
      modifies this
      ensures files == (old(files) - {from})[to := old(files)[from]]
    {
      var f := files[from];
      files := (files - {from})[to := f];
    }

    /** `std::fs::write`; a sealed file refuses it. */
    method WriteFile(p: Path, content: bytes) returns (ok: bool)
      modifies this
      ensures ok <==> !(p in old(files) && old(files)[p].isSealed)
      ensures files == if ok then old(files)[p := File(content, false)] else old(files)
    {
      ok := !(p in files && files[p].isSealed);
      if ok { files := files[p := File(content, false)]; }
    }

    /** The unseal, rename, seal sequence of `rename` and `move_to_category`. */
    method MoveSealed(from: Path, to: Path, accepts: bool) returns (ok: bool)
      modifies this
      ensures (files, ok) == Relocate(old(files), from, to, accepts)
    {
      var found := SetSealed(from, false);
      if !found { return false; }
      assert files.Keys == old(files).Keys;
      SameKeysBlock(old(files), files, to);
      if ParentBlocked(files, to) || !accepts { return false; }
      RenameFile(from, to);
      ok := SetSealed(to, true);
      assert files == (old(files) - {from})[to := File(old(files)[from].content, true)];
    }
  }
}
