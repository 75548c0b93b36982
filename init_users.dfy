/** The user database reset (`app/api/admin/init-user-database/route.ts`):
    one user per image file of a folder, named after the file, the photo
    copied to the served image folder, and the whole store replaced. The
    folder listing, ids, times and the backup copy's timestamp are parameters. */
module InitUserDatabase {
  import opened Json
  import opened Types
  import opened Strings
  import opened Seqs
  import opened UsersRoute

  /** The length of the image extension `/\.(jpg|jpeg|png|gif)$/i` finds at
      the end of the name, 0 when there is none. */
  function ImageExtLength(f: string): (n: nat)
    ensures n == 0 || n == 4 || n == 5
    ensures n <= |f|
  {
    var l := Lower(f);
    if EndsWith(l, ".jpeg") then 5
    else if EndsWith(l, ".jpg") || EndsWith(l, ".png") || EndsWith(l, ".gif") then 4
    else 0
  }

  predicate IsImageFile(f: string) {
    ImageExtLength(f) > 0
  }

  function IsImage(): string -> bool {
    (f: string) => IsImageFile(f)
  }

  /** The name with its image extension removed. */
  function StripExtension(f: string): (r: string)
    ensures r == f[..|f| - ImageExtLength(f)]
  {
    f[..|f| - ImageExtLength(f)]
  }

  /** `s.replace('_', ' ')`: only the first `_` becomes a space. */
  function ReplaceFirstUnderscore(s: string): (r: string)
    ensures |r| == |s|
    ensures '_' !in s ==> r == s
    ensures '_' in s ==> var k := IndexOf(s, '_').value;
      r[k] == ' ' && r[..k] == s[..k] && r[k + 1..] == s[k + 1..]
  {
    match IndexOf(s, '_')
    case None => s
    case Some(k) => s[..k] + " " + s[k + 1..]
  }

  /** `word.charAt(0).toUpperCase() + word.slice(1)`. */
  function Capitalize(word: string): (r: string)
    ensures |r| == |word|
    ensures word != "" ==> r[0] == UpperChar(word[0]) && r[1..] == word[1..]
  {
    if word == "" then "" else [UpperChar(word[0])] + word[1..]
  }

  function CapitalizeOf(): string -> string {
    (word: string) => Capitalize(word)
  }

  /** Each space-separated word capitalised, joined again with spaces. */
  function CapitalizeWords(s: string): string {
    Join(Map(Split(s, ' '), CapitalizeOf()), " ")
  }

  /** The display name built from an image file's name. */
  function DisplayName(f: string): string {
    CapitalizeWords(ReplaceFirstUnderscore(StripExtension(f)))
  }

  lemma LowerCapitalize(word: string)
    ensures Lower(Capitalize(word)) == Lower(word)
  {
    if word != "" {
      assert LowerChar(UpperChar(word[0])) == LowerChar(word[0]);
      var c := Capitalize(word);
      assert forall i :: 0 <= i < |word| ==> Lower(c)[i] == Lower(word)[i];
    }
  }

  lemma {:induction false} LowerJoinCapitalized(parts: seq<string>)
    ensures Lower(Join(Map(parts, CapitalizeOf()), " ")) == Lower(Join(parts, " "))
  {
    if |parts| == 1 {
      LowerCapitalize(parts[0]);
    } else if |parts| > 1 {
      LowerJoinCapitalized(parts[1..]);
      var m := Map(parts, CapitalizeOf());
      assert m[1..] == Map(parts[1..], CapitalizeOf());
      LowerCapitalize(parts[0]);
      LowerAppend(m[0] + " ", Join(m[1..], " "));
      LowerAppend(m[0], " ");
      LowerAppend(parts[0] + " ", Join(parts[1..], " "));
      LowerAppend(parts[0], " ");
    }
  }

  /** Capitalising the words changes nothing but the case of letters: the
      display name is the file name without extension and with its first
      `_` made a space, up to case. */
  lemma DisplayNameUpToCase(f: string)
    ensures |DisplayName(f)| == |StripExtension(f)|
    ensures Lower(DisplayName(f)) == Lower(ReplaceFirstUnderscore(StripExtension(f)))
  {
    var s := ReplaceFirstUnderscore(StripExtension(f));
    LowerJoinCapitalized(Split(s, ' '));
    JoinSplit(s, ' ');
  }

  lemma LowerPng(n: string)
    ensures EndsWith(Lower(n + ".png"), ".png")
  {
    LowerAppend(n, ".png");
    assert Lower(".png") == ".png";
    var l := Lower(n + ".png");
    assert l[|l| - 4..] == ".png";
  }

  lemma PngIsNoJpeg(l: string)
    requires EndsWith(l, ".png")
    ensures !EndsWith(l, ".jpeg")
  {
    assert l[|l| - 2] == l[|l| - 4..][2] == 'n';
  }

  /** A `.png` name loses exactly its extension. */
  lemma {:induction false} StripPng(n: string)
    ensures StripExtension(n + ".png") == n
  {
    var f := n + ".png";
    LowerPng(n);
    PngIsNoJpeg(Lower(f));
    assert ImageExtLength(f) == 4;
    assert f[..|n|] == n;
  }

  /** Only the first `_` becomes a space: in `a_b`, with no `_` in `a`,
      every later `_` of `b` is kept. */
  lemma {:induction false} FirstUnderscoreOnly(a: string, b: string)
    requires '_' !in a
    ensures ReplaceFirstUnderscore(a + "_" + b) == a + " " + b
  {
    var s := a + "_" + b;
    assert s[|a|] == '_';
    var k := IndexOf(s, '_').value;
    assert k == |a|;
    assert s[..k] == a && s[k + 1..] == b;
  }

  /** Two words are capitalised one by one. */
  lemma {:induction false} CapitalizeTwoWords(a: string, b: string)
    requires ' ' !in a && ' ' !in b
    ensures CapitalizeWords(a + " " + b) == Capitalize(a) + " " + Capitalize(b)
  {
    SplitWithoutSeparator(b, ' ');
    SplitAtFirst(a, ' ', b);
    assert a + " " + b == a + [' '] + b;
    var m := Map([a, b], CapitalizeOf());
    assert m == [Capitalize(a), Capitalize(b)];
    assert m[1..] == [Capitalize(b)];
    assert Join(m, " ") == m[0] + " " + Join(m[1..], " ");
  }

  /** The name built from `a_b.png`: the first word and the rest, each
      capitalised, with any further `_` of the rest kept as it is. */
  lemma DisplayNameOfUnderscoredPng(a: string, b: string)
    requires '_' !in a && ' ' !in a && ' ' !in b
    ensures DisplayName(a + "_" + b + ".png") == Capitalize(a) + " " + Capitalize(b)
  {
    StripPng(a + "_" + b);
    FirstUnderscoreOnly(a, b);
    CapitalizeTwoWords(a, b);
  }

  /** The users built from a folder listing: one per image file, in listing
      order, with its id and time taken from the position. */
  function BuildUsers(files: seq<string>, idAt: nat -> string, dateAt: nat -> string): (users: seq<User>)
    ensures var images := Filter(files, IsImage());
      && |users| == |images|
      && forall i :: 0 <= i < |users| ==>
           users[i] == User(idAt(i), DisplayName(images[i]), PhotoUrl(images[i]), dateAt(i))
  {
    var images := Filter(files, IsImage());
    seq(|images|, i requires 0 <= i < |images| => User(idAt(i), DisplayName(images[i]), PhotoUrl(images[i]), dateAt(i)))
  }

  /** A file of the listing gets a user exactly when it is an image file. */
  lemma UserPerImageFile(files: seq<string>, idAt: nat -> string, dateAt: nat -> string, f: string)
    requires f in files
    ensures IsImageFile(f) <==> exists i :: 0 <= i < |BuildUsers(files, idAt, dateAt)| && BuildUsers(files, idAt, dateAt)[i].profilePhoto == PhotoUrl(f)
  {
    var images := Filter(files, IsImage());
    var users := BuildUsers(files, idAt, dateAt);
    FilterMember(files, IsImage(), f);
    if IsImageFile(f) {
      var i :| 0 <= i < |images| && images[i] == f;
      assert users[i].profilePhoto == PhotoUrl(f);
    } else {
      forall i | 0 <= i < |users| ensures users[i].profilePhoto != PhotoUrl(f) {
        FilterMember(files, IsImage(), images[i]);
        assert PhotoUrl(images[i])[8..] == images[i];
        assert PhotoUrl(f)[8..] == f;
      }
    }
  }

  /** `users-backup-<timestamp>.json`, the timestamp's `:` and `.` made `-`. */
  function BackupFileName(isoTimestamp: string): (r: string)
    ensures StartsWith(r, "users-backup-") && EndsWith(r, ".json")
    ensures |r| == |isoTimestamp| + 18
    ensures forall i :: 13 <= i < |r| - 5 ==> r[i] != ':' && r[i] != '.'
  {
    var stamp := ReplaceChars(isoTimestamp, (c: char) => c == ':' || c == '.', '-');
    var r := "users-backup-" + stamp + ".json";
    assert r[..13] == "users-backup-" && r[|r| - 5..] == ".json";
    assert forall i :: 13 <= i < |r| - 5 ==> r[i] == stamp[i - 13];
    r
  }

  /** The public images folder the reset copies the photos into (not the
      route's profile-image folder). */
  class ImageFolder {
    var files: set<string>

    constructor (files: set<string>)
      ensures this.files == files
    {
      this.files := files;
    }
  }

  /** POST: the reset. Each image file of the listing is copied into the
      public images folder, and the stored user list is replaced by the
      built users; the backup copy's name is returned. */
  method InitUserDatabase(registry: UserRegistry, images: ImageFolder, files: seq<string>,
                          idAt: nat -> string, dateAt: nat -> string, isoTimestamp: string)
    returns (backupFileName: string)
    modifies registry`data, images
    ensures backupFileName == BackupFileName(isoTimestamp)
    ensures registry.data == Some(BuildUsers(files, idAt, dateAt))
    ensures images.files == old(images.files) + (set f | f in files && IsImageFile(f))
  {
    backupFileName := BackupFileName(isoTimestamp);
    var listed := Filter(files, IsImage());
    var i := 0;
    while i < |listed|
      invariant 0 <= i <= |listed|
      invariant images.files == old(images.files) + (set k | 0 <= k < i :: listed[k])
    {
      images.files := images.files + {listed[i]};
      i := i + 1;
    }
    forall f ensures f in (set k | 0 <= k < |listed| :: listed[k]) <==> f in files && IsImageFile(f) {
      FilterMember(files, IsImage(), f);
    }
    registry.data := Some(BuildUsers(files, idAt, dateAt));
  }
}
