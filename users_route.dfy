/** The user registry route (`/api/admin/users`): the list of users and the
    profile photo files that belong to them. The photo directory and its
    archive sub-directory are modelled as sets of file names; whether a disk
    write or rename succeeds is a parameter. */
module UsersRoute {
  import opened Json
  import opened Types
  import opened Strings
  import opened Seqs
  import opened Http

  // ---------------------------------------------------------------------
  // File names

  predicate NoWhitespace(s: string) {
    forall i :: 0 <= i < |s| ==> !IsWhitespace(s[i])
  }

  /** `s` without its leading white space. */
  function DropWhitespace(s: string): (r: string)
    ensures |r| <= |s|
  {
    if s != [] && IsWhitespace(s[0]) then DropWhitespace(s[1..]) else s
  }

  /** What is left is a suffix that does not start with white space. */
  lemma {:induction false} DropWhitespaceShape(s: string)
    ensures var r := DropWhitespace(s);
      r == s[|s| - |r|..] && (r == [] || !IsWhitespace(r[0]))
  {
    if s != [] && IsWhitespace(s[0]) {
      DropWhitespaceShape(s[1..]);
    }
  }

  /** `s.replace(/\s+/g, '_')`: every run of white space becomes one `_`. */
  function CollapseWhitespace(s: string): string
    decreases |s|
  {
    if s == [] then []
    else if IsWhitespace(s[0]) then "_" + CollapseWhitespace(DropWhitespace(s[1..]))
    else [s[0]] + CollapseWhitespace(s[1..])
  }

  /** No white space is left, and a string without any is unchanged. */
  lemma {:induction false} CollapseWhitespaceShape(s: string)
    ensures NoWhitespace(CollapseWhitespace(s))
    ensures NoWhitespace(s) ==> CollapseWhitespace(s) == s
    decreases |s|
  {
    if s != [] {
      if IsWhitespace(s[0]) {
        CollapseWhitespaceShape(DropWhitespace(s[1..]));
        var r := CollapseWhitespace(s);
        assert r == "_" + CollapseWhitespace(DropWhitespace(s[1..]));
        assert forall i :: 1 <= i < |r| ==> r[i] == CollapseWhitespace(DropWhitespace(s[1..]))[i - 1];
      } else {
        CollapseWhitespaceShape(s[1..]);
        var r := CollapseWhitespace(s);
        assert r == [s[0]] + CollapseWhitespace(s[1..]);
        assert forall i :: 1 <= i < |r| ==> r[i] == CollapseWhitespace(s[1..])[i - 1];
        assert NoWhitespace(s) ==> NoWhitespace(s[1..]);
      }
    }
  }

  /** The photo file of a user name: lower-cased, white-space runs replaced
      by `_`, with `.jpg` appended. */
  function DerivedFileName(name: string): string {
    CollapseWhitespace(Lower(name)) + ".jpg"
  }

  /** A derived file name ends in `.jpg` and holds no white space; a name
      without white space is only lower-cased. */
  lemma DerivedFileNameShape(name: string)
    ensures EndsWith(DerivedFileName(name), ".jpg")
    ensures NoWhitespace(DerivedFileName(name))
    ensures NoWhitespace(name) ==> DerivedFileName(name) == Lower(name) + ".jpg"
  {
    var c := CollapseWhitespace(Lower(name));
    var r := DerivedFileName(name);
    CollapseWhitespaceShape(Lower(name));
    assert r[|r| - 4..] == ".jpg";
    assert NoWhitespace(".jpg");
    NoWhitespaceAppend(c, ".jpg");
    if NoWhitespace(name) {
      LowerNoWhitespace(name);
    }
  }

  lemma NoWhitespaceAppend(a: string, b: string)
    requires NoWhitespace(a) && NoWhitespace(b)
    ensures NoWhitespace(a + b)
  {
    forall i | 0 <= i < |a + b| ensures !IsWhitespace((a + b)[i]) {
      if i >= |a| {
        assert (a + b)[i] == b[i - |a|];
      }
    }
  }

  /** Names equal but for case share a photo file ... */
  lemma SameNameSameFile(a: string, b: string)
    requires Lower(a) == Lower(b)
    ensures DerivedFileName(a) == DerivedFileName(b)
  {
  }

  /** Leading white space is dropped up to the first other character. */
  lemma {:induction false} DropGap(gap: string, b: string)
    requires forall i :: 0 <= i < |gap| ==> IsWhitespace(gap[i])
    requires b == [] || !IsWhitespace(b[0])
    ensures DropWhitespace(gap + b) == b
  {
    if gap == [] {
      assert gap + b == b;
    } else {
      DropGap(gap[1..], b);
      var s := gap + b;
      assert s[0] == gap[0] && s[1..] == gap[1..] + b;
      assert IsWhitespace(s[0]);
    }
  }

  lemma CollapseStep(c: char, t: string)
    requires !IsWhitespace(c)
    ensures CollapseWhitespace([c] + t) == [c] + CollapseWhitespace(t)
  {
    assert ([c] + t)[0] == c && ([c] + t)[1..] == t;
  }

  lemma CollapseLeadingGap(gap: string, b: string)
    requires NoWhitespace(b)
    requires gap != [] && forall i :: 0 <= i < |gap| ==> IsWhitespace(gap[i])
    ensures CollapseWhitespace(gap + b) == "_" + b
  {
    var s := gap + b;
    assert s[0] == gap[0] && s[1..] == gap[1..] + b;
    DropGap(gap[1..], b);
    CollapseWhitespaceShape(b);
  }

  /** A run of white space between two words becomes one `_`. */
  lemma {:induction false} CollapseGap(a: string, gap: string, b: string)
    requires NoWhitespace(a) && NoWhitespace(b)
    requires gap != [] && forall i :: 0 <= i < |gap| ==> IsWhitespace(gap[i])
    ensures CollapseWhitespace(a + gap + b) == a + "_" + b
  {
    if a == [] {
      assert a + gap + b == gap + b;
      CollapseLeadingGap(gap, b);
    } else {
      CollapseGap(a[1..], gap, b);
      CollapseStep(a[0], a[1..] + gap + b);
      assert a + gap + b == [a[0]] + (a[1..] + gap + b);
      assert a + "_" + b == [a[0]] + (a[1..] + "_" + b);
    }
  }

  /** Lower-casing passes over a gap that has no upper-case letter. */
  lemma LowerAroundGap(a: string, gap: string, b: string)
    requires Lower(gap) == gap
    ensures Lower(a + gap + b) == Lower(a) + gap + Lower(b)
  {
    LowerAppend(a + gap, b);
    LowerAppend(a, gap);
  }

  lemma LowerNoWhitespace(a: string)
    requires NoWhitespace(a)
    ensures NoWhitespace(Lower(a))
  {
    forall i | 0 <= i < |a| ensures !IsWhitespace(Lower(a)[i]) {
      assert Lower(a)[i] == LowerChar(a[i]);
    }
  }

  /** ... and so do some names that differ other than by case: `a b` and
      `a  b` pass the duplicate check side by side and save their photos to
      one file. */
  lemma DistinctNamesShareFile(a: string, b: string)
    requires NoWhitespace(a) && NoWhitespace(b)
    ensures Lower(a + " " + b) != Lower(a + "  " + b)
    ensures DerivedFileName(a + " " + b) == DerivedFileName(a + "  " + b) == Lower(a) + "_" + Lower(b) + ".jpg"
  {
    var la, lb := Lower(a), Lower(b);
    LowerNoWhitespace(a);
    LowerNoWhitespace(b);
    assert Lower(" ") == " " && Lower("  ") == "  ";
    LowerAroundGap(a, " ", b);
    LowerAroundGap(a, "  ", b);
    assert |la + " " + lb| != |la + "  " + lb|;
    CollapseGap(la, " ", lb);
    CollapseGap(la, "  ", lb);
  }

  /** The URL the route serves a photo file under. */
  function PhotoUrl(fileName: string): string {
    "/images/" + fileName
  }

  /** `path.basename(p)`: what follows the last `/`. Node's `basename`
      also drops a trailing `/` first (`a/b/` gives `b`), where this gives
      `""`; no URL built by `PhotoUrl` or stored by the initialisation
      route ends in `/`, so that case does not arise here. */
  function Basename(p: string): (r: string)
    ensures '/' !in r && EndsWith(p, r)
  {
    match LastIndexOf(p, '/')
    case None => p
    case Some(k) => p[k + 1..]
  }

  lemma BasenameOfPhotoUrl(fileName: string)
    requires '/' !in fileName
    ensures Basename(PhotoUrl(fileName)) == fileName
  {
    var p := PhotoUrl(fileName);
    assert p[7] == '/';
    var k := LastIndexOf(p, '/').value;
    assert k == 7;
    assert p[8..] == fileName;
  }

  /** `path.extname(f)`: from the last `.` on, unless that dot starts the name. */
  function Extname(f: string): (r: string)
    ensures r == "" || (EndsWith(f, r) && |r| < |f|)
    ensures r != "" ==> r[0] == '.'
  {
    match LastIndexOf(f, '.')
    case Some(k) => if k > 0 then f[k..] else ""
    case None => ""
  }

  /** Where DELETE moves a photo in the archive: its own name, or
      `<base>-<timestamp><ext>` when the archive already holds that name. */
  function ArchiveTarget(fileName: string, archive: set<string>, timestamp: nat): string {
    if fileName in archive then
      var ext := Extname(fileName);
      fileName[..|fileName| - |ext|] + "-" + NatToString(timestamp) + ext
    else fileName
  }

  /** The archive target never replaces the archived file of the same name,
      and keeps the extension. */
  lemma ArchiveTargetAvoidsSameName(fileName: string, archive: set<string>, timestamp: nat)
    ensures fileName in archive ==> ArchiveTarget(fileName, archive, timestamp) != fileName
    ensures fileName !in archive ==> ArchiveTarget(fileName, archive, timestamp) == fileName
    ensures EndsWith(ArchiveTarget(fileName, archive, timestamp), Extname(fileName))
  {
    var t := ArchiveTarget(fileName, archive, timestamp);
    var ext := Extname(fileName);
    if fileName in archive {
      assert |t| == |fileName| + 1 + |NatToString(timestamp)|;
      assert t[|t| - |ext|..] == ext;
    }
  }

  /** The photo file a stored URL names, `''` when there is no photo. */
  function PhotoFileName(profilePhoto: string): string {
    if profilePhoto != "" then Basename(profilePhoto) else ""
  }

  // ---------------------------------------------------------------------
  // Photo outcomes

  const JpegPrefix: string := "data:image/jpeg;base64,"

  /** The photo URL and the photo files after some steps of a request. */
  datatype PhotoOutcome = PhotoOutcome(url: string, photos: set<string>)

  /** Add: the photo is saved under the derived name when one is sent and the
      write succeeds; otherwise the user gets no photo. */
  function AddOutcome(name: string, profilePhoto: Option<string>, writeOk: bool, photos: set<string>): PhotoOutcome {
    if Truthy(profilePhoto) && writeOk then PhotoOutcome(PhotoUrl(DerivedFileName(name)), photos + {DerivedFileName(name)})
    else PhotoOutcome("", photos)
  }

  /** Update's first step: a JPEG data URL is saved over the existing
      photo's file (or the derived name when there is none), falling back to
      the existing URL when the write fails. */
  function SaveStep(e: User, name: string, profilePhoto: Option<string>, writeOk: bool, photos: set<string>): PhotoOutcome {
    var target := if Basename(e.profilePhoto) != "" then Basename(e.profilePhoto) else DerivedFileName(name);
    if Truthy(profilePhoto) && StartsWith(profilePhoto.value, JpegPrefix) && writeOk then PhotoOutcome(PhotoUrl(target), photos + {target})
    else PhotoOutcome(e.profilePhoto, photos)
  }

  /** Update's second step: when the name changes and the user had a photo,
      the derived file of the old name, if present, is renamed to that of the
      new one, and the user points at it. */
  function RenameStep(e: User, name: string, renameOk: bool, o: PhotoOutcome): PhotoOutcome {
    if name != e.name && e.profilePhoto != "" && DerivedFileName(e.name) in o.photos && renameOk then
      PhotoOutcome(PhotoUrl(DerivedFileName(name)), o.photos - {DerivedFileName(e.name)} + {DerivedFileName(name)})
    else o
  }

  /** Update: both steps; the final URL falls back to the existing one when empty. */
  function UpdateOutcome(e: User, name: string, profilePhoto: Option<string>, writeOk: bool, renameOk: bool, photos: set<string>): PhotoOutcome {
    var o := RenameStep(e, name, renameOk, SaveStep(e, name, profilePhoto, writeOk, photos));
    o.(url := if o.url != "" then o.url else e.profilePhoto)
  }

  /** Update removes no photo file unless the name changed and the user had a
      photo; a user with a photo keeps one; a request with neither a new photo
      nor a new name changes nothing. */
  lemma UpdateOutcomeProperties(e: User, name: string, profilePhoto: Option<string>, writeOk: bool, renameOk: bool, photos: set<string>)
    ensures var o := UpdateOutcome(e, name, profilePhoto, writeOk, renameOk, photos);
      (name == e.name || e.profilePhoto == "") ==> photos <= o.photos
    ensures var o := UpdateOutcome(e, name, profilePhoto, writeOk, renameOk, photos);
      e.profilePhoto != "" ==> o.url != ""
    ensures var o := UpdateOutcome(e, name, profilePhoto, writeOk, renameOk, photos);
      !Truthy(profilePhoto) && name == e.name ==> o == PhotoOutcome(e.profilePhoto, photos)
  {
  }

  /** A successful rename points the user at the new name's file, which exists. */
  lemma UpdateOutcomeRename(e: User, name: string, profilePhoto: Option<string>, writeOk: bool, photos: set<string>)
    requires name != e.name && e.profilePhoto != "" && DerivedFileName(e.name) in photos
    ensures var o := UpdateOutcome(e, name, profilePhoto, writeOk, true, photos);
      o.url == PhotoUrl(DerivedFileName(name)) && DerivedFileName(name) in o.photos
    ensures var o := UpdateOutcome(e, name, profilePhoto, writeOk, true, photos);
      DerivedFileName(e.name) != DerivedFileName(name) ==> DerivedFileName(e.name) !in o.photos
  {
  }

  // ---------------------------------------------------------------------
  // The registry invariant

  function NameMatches(name: string): User -> bool {
    (u: User) => Lower(u.name) == Lower(name)
  }

  function UserIdIs(id: string): User -> bool {
    (u: User) => u.id == id
  }

  /** No two users have names equal but for case. */
  predicate NamesDistinct(users: seq<User>) {
    forall i, j :: 0 <= i < j < |users| ==> Lower(users[i].name) != Lower(users[j].name)
  }

  lemma {:induction false} AddKeepsNamesDistinct(users: seq<User>, u: User)
    requires NamesDistinct(users) && FindIndex(users, NameMatches(u.name)).None?
    ensures NamesDistinct(users + [u])
  {
    var t := users + [u];
    forall i, j | 0 <= i < j < |t| ensures Lower(t[i].name) != Lower(t[j].name) {
      if j == |users| {
        assert !NameMatches(u.name)(users[i]);
      }
    }
  }

  /** Update does not re-check names: renaming a user can make two names
      equal but for case. */
  lemma UpdateMayDuplicateName()
    ensures var users := [User("1", "Ann", "", "t0"), User("2", "Bob", "", "t0")];
      NamesDistinct(users) && !NamesDistinct(users[1 := users[1].(name := "ann")])
  {
    var users := [User("1", "Ann", "", "t0"), User("2", "Bob", "", "t0")];
    assert Lower("Ann") == "ann" && Lower("Bob") == "bob";
    var t := users[1 := users[1].(name := "ann")];
    assert Lower(t[0].name) == Lower(t[1].name);
  }

  // ---------------------------------------------------------------------
  // The route

  /** A POST body: `id` present means update, absent means add. */
  datatype UserBody = UserBody(id: Option<string>, name: Option<string>, profilePhoto: Option<string>)

  /** A GET answer: one user, all users, or 404 "User not found.". */
  datatype UserLookup = One(user: User) | All(users: seq<User>) | NotFound

  class UserRegistry {
    var data: Option<seq<User>>
    var photos: set<string>
    var archive: set<string>

    constructor (stored: Option<seq<User>>, photos: set<string>, archive: set<string>)
      ensures data == stored && this.photos == photos && this.archive == archive
    {
      data := stored;
      this.photos := photos;
      this.archive := archive;
    }

    /** `usersDB.data || []`. */
    function Users(): seq<User>
      reads this
    {
      data.GetOr([])
    }

    /** `initUsersDB`. */
    method Init()
      modifies this`data
      ensures data == Some(old(Users()))
    {
      data := Some(Users());
    }

    /** `saveUserProfilePhoto`: writes the photo under `overwriteFileName`
        when that is truthy, else under the derived name; None when the
        write fails. */
    method SavePhoto(userName: string, overwriteFileName: string, writeOk: bool) returns (url: Option<string>)
      modifies this`photos
      ensures var fileName := if overwriteFileName != "" then overwriteFileName else DerivedFileName(userName);
        && (writeOk ==> url == Some(PhotoUrl(fileName)) && photos == old(photos) + {fileName})
        && (!writeOk ==> url == None && photos == old(photos))
    {
      var fileName := if overwriteFileName != "" then overwriteFileName else DerivedFileName(userName);
      if !writeOk {
        return None;
      }
      photos := photos + {fileName};
      url := Some(PhotoUrl(fileName));
    }

    /** `renameProfilePhoto`: moves the old name's derived file to the new
        name's, when the old one exists; None otherwise or when the rename fails. */
    method RenamePhoto(oldName: string, newName: string, renameOk: bool) returns (url: Option<string>)
      modifies this`photos
      ensures var oldFile, newFile := DerivedFileName(oldName), DerivedFileName(newName);
        && (oldFile in old(photos) && renameOk ==>
              url == Some(PhotoUrl(newFile)) && photos == old(photos) - {oldFile} + {newFile})
        && (!(oldFile in old(photos) && renameOk) ==> url == None && photos == old(photos))
    {
      var oldFile := DerivedFileName(oldName);
      var newFile := DerivedFileName(newName);
      if oldFile in photos && renameOk {
        photos := photos - {oldFile} + {newFile};
        return Some(PhotoUrl(newFile));
      }
      return None;
    }

    /** POST's add path, on the store already read. */
    method Add(name: string, profilePhoto: Option<string>, freshId: string, now: string, writeOk: bool)
      returns (reply: Reply)
      requires data.Some?
      modifies this`data, this`photos
      ensures FindIndex(old(Users()), NameMatches(name)).Some? ==>
        && reply == Reply(400, "User with the name \"" + name + "\" already exists.")
        && data == old(data) && photos == old(photos)
      ensures FindIndex(old(Users()), NameMatches(name)).None? ==>
        var o := AddOutcome(name, profilePhoto, writeOk, old(photos));
        && reply == Reply(201, "User successfully added")
        && data == Some(old(Users()) + [User(freshId, name, o.url, now)])
        && photos == o.photos
      ensures NamesDistinct(old(Users())) ==> NamesDistinct(Users())
    {
      if FindIndex(data.value, NameMatches(name)).Some? {
        return Reply(400, "User with the name \"" + name + "\" already exists.");
      }
      var savedImageUrl := Some("");
      if Truthy(profilePhoto) {
        savedImageUrl := SavePhoto(name, "", writeOk);
      }
      var url := OrEmpty(savedImageUrl);
      var newUser := User(freshId, name, url, now);
      if NamesDistinct(data.value) { AddKeepsNamesDistinct(data.value, newUser); }
      data := Some(data.value + [newUser]);
      reply := Reply(201, "User successfully added");
    }

    /** The photo steps of POST's update path for the stored user `e`: save
        a sent JPEG over its file, then rename the file when the name
        changes; the URL the user ends with. */
    method UpdatePhoto(e: User, name: string, profilePhoto: Option<string>, writeOk: bool, renameOk: bool)
      returns (url: string)
      modifies this`photos
      ensures url == UpdateOutcome(e, name, profilePhoto, writeOk, renameOk, old(photos)).url
      ensures photos == UpdateOutcome(e, name, profilePhoto, writeOk, renameOk, old(photos)).photos
    {
      var savedImageUrl := e.profilePhoto;
      if Truthy(profilePhoto) && StartsWith(profilePhoto.value, JpegPrefix) {
        var saved := SavePhoto(name, Basename(e.profilePhoto), writeOk);
        savedImageUrl := if Truthy(saved) then saved.value else e.profilePhoto;
      }
      ghost var saveStep := SaveStep(e, name, profilePhoto, writeOk, old(photos));
      assert savedImageUrl == saveStep.url && photos == saveStep.photos;
      if name != e.name && e.profilePhoto != "" {
        var newImageUrl := RenamePhoto(e.name, name, renameOk);
        if Truthy(newImageUrl) {
          savedImageUrl := newImageUrl.value;
        }
      }
      assert savedImageUrl == RenameStep(e, name, renameOk, saveStep).url;
      url := if savedImageUrl != "" then savedImageUrl else e.profilePhoto;
    }

    /** POST's update path, on the store already read. */
    method Update(id: string, name: string, profilePhoto: Option<string>, now: string, writeOk: bool, renameOk: bool)
      returns (reply: Reply)
      requires data.Some?
      modifies this`data, this`photos
      ensures FindIndex(old(Users()), UserIdIs(id)).None? ==>
        reply == Reply(404, "User not found.") && data == old(data) && photos == old(photos)
      ensures FindIndex(old(Users()), UserIdIs(id)).Some? ==>
        var i := FindIndex(old(Users()), UserIdIs(id)).value;
        var e := old(Users())[i];
        var o := UpdateOutcome(e, name, profilePhoto, writeOk, renameOk, old(photos));
        && reply == Reply(200, "User successfully updated")
        && data == Some(old(Users())[i := User(e.id, name, o.url, now)])
        && photos == o.photos
    {
      var found := FindIndex(data.value, UserIdIs(id));
      if found.None? {
        return Reply(404, "User not found.");
      }
      var i := found.value;
      var existing := data.value[i];
      var photo := UpdatePhoto(existing, name, profilePhoto, writeOk, renameOk);
      data := Some(data.value[i := User(existing.id, name, photo, now)]);
      reply := Reply(200, "User successfully updated");
    }

    /** POST: add (no id) or update (id). A falsy name is refused before the
        store is read. Add refuses a name equal but for case to a stored one;
        update refuses an unknown id and checks no names. */
    method Post(body: UserBody, freshId: string, now: string, writeOk: bool, renameOk: bool) returns (reply: Reply)
      modifies this
      ensures archive == old(archive)
      ensures !Truthy(body.name) ==>
        reply == Reply(400, "Name is required.") && data == old(data) && photos == old(photos)
      ensures Truthy(body.name) && !Truthy(body.id) && FindIndex(old(Users()), NameMatches(body.name.value)).Some? ==>
        && reply == Reply(400, "User with the name \"" + body.name.value + "\" already exists.")
        && data == Some(old(Users())) && photos == old(photos)
      ensures Truthy(body.name) && !Truthy(body.id) && FindIndex(old(Users()), NameMatches(body.name.value)).None? ==>
        var o := AddOutcome(body.name.value, body.profilePhoto, writeOk, old(photos));
        && reply == Reply(201, "User successfully added")
        && data == Some(old(Users()) + [User(freshId, body.name.value, o.url, now)])
        && photos == o.photos
      ensures Truthy(body.name) && Truthy(body.id) && FindIndex(old(Users()), UserIdIs(body.id.value)).None? ==>
        reply == Reply(404, "User not found.") && data == Some(old(Users())) && photos == old(photos)
      ensures Truthy(body.name) && Truthy(body.id) && FindIndex(old(Users()), UserIdIs(body.id.value)).Some? ==>
        var i := FindIndex(old(Users()), UserIdIs(body.id.value)).value;
        var e := old(Users())[i];
        var o := UpdateOutcome(e, body.name.value, body.profilePhoto, writeOk, renameOk, old(photos));
        && reply == Reply(200, "User successfully updated")
        && data == Some(old(Users())[i := User(e.id, body.name.value, o.url, now)])
        && photos == o.photos
      ensures NamesDistinct(old(Users())) && !Truthy(body.id) ==> NamesDistinct(Users())
    {
      if !Truthy(body.name) {
        return Reply(400, "Name is required.");
      }
      Init();
      if !Truthy(body.id) {
        reply := Add(body.name.value, body.profilePhoto, freshId, now, writeOk);
      } else {
        reply := Update(body.id.value, body.name.value, body.profilePhoto, now, writeOk, renameOk);
      }
    }

    /** GET: the user with the `userID` parameter when it is truthy, else all users. */
    method Get(userID: Option<string>) returns (r: UserLookup)
      modifies this`data
      ensures data == Some(old(Users()))
      ensures Truthy(userID) ==>
        r == match Find(old(Users()), UserIdIs(userID.value)) case Some(u) => One(u) case None => NotFound
      ensures !Truthy(userID) ==> r == All(old(Users()))
    {
      Init();
      if Truthy(userID) {
        var u := Find(data.value, UserIdIs(userID.value));
        r := if u.Some? then One(u.value) else NotFound;
      } else {
        r := All(data.value);
      }
    }

    /** DELETE's file step: the photo file, when it exists, moves to the
        archive under `ArchiveTarget`. */
    method ArchivePhoto(fileName: string, timestamp: nat)
      modifies this`photos, this`archive
      ensures fileName != "" && fileName in old(photos) ==>
        photos == old(photos) - {fileName} && archive == old(archive) + {ArchiveTarget(fileName, old(archive), timestamp)}
      ensures !(fileName != "" && fileName in old(photos)) ==> photos == old(photos) && archive == old(archive)
    {
      if fileName != "" {
        var finalArchiveName := fileName;
        if fileName in archive {
          var ext := Extname(fileName);
          finalArchiveName := fileName[..|fileName| - |ext|] + "-" + NatToString(timestamp) + ext;
        }
        if fileName in photos {
          photos := photos - {fileName};
          archive := archive + {finalArchiveName};
        }
      }
    }

    /** DELETE: remove the user at the index of the id; 400 for a falsy id,
        404 for an unknown one. The user's photo file is archived first. */
    method Delete(id: Option<string>, timestamp: nat) returns (reply: Reply)
      modifies this
      ensures !Truthy(id) ==>
        reply == Reply(400, "User ID is required for deletion.")
        && data == old(data) && photos == old(photos) && archive == old(archive)
      ensures Truthy(id) && FindIndex(old(Users()), UserIdIs(id.value)).None? ==>
        reply == Reply(404, "User not found.")
        && data == Some(old(Users())) && photos == old(photos) && archive == old(archive)
      ensures Truthy(id) && FindIndex(old(Users()), UserIdIs(id.value)).Some? ==>
        var i := FindIndex(old(Users()), UserIdIs(id.value)).value;
        var fileName := PhotoFileName(old(Users())[i].profilePhoto);
        var moved := fileName != "" && fileName in old(photos);
        && reply == Reply(200, "User deleted successfully")
        && data == Some(RemoveAt(old(Users()), i))
        && photos == (if moved then old(photos) - {fileName} else old(photos))
        && archive == (if moved then old(archive) + {ArchiveTarget(fileName, old(archive), timestamp)} else old(archive))
    {
      if !Truthy(id) {
        return Reply(400, "User ID is required for deletion.");
      }
      Init();
      var found := FindIndex(data.value, UserIdIs(id.value));
      if found.None? {
        return Reply(404, "User not found.");
      }
      var i := found.value;
      ArchivePhoto(PhotoFileName(data.value[i].profilePhoto), timestamp);
      data := Some(RemoveAt(data.value, i));
      reply := Reply(200, "User deleted successfully");
    }
  }
}
