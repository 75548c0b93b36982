/** A user's card (`components/user-card.tsx`): the initials shown in place
    of a missing photo. */
module UserCard {
  import opened Json
  import opened Types
  import opened Strings
  import opened Seqs

  /** The words `getInitials` skips, compared in lower case. */
  const Stopwords: seq<string> := ["of", "the", "in", "on", "with", "for", "and"]

  function KeepWord(): string -> bool {
    (word: string) => Lower(word) !in Stopwords
  }

  /** `word.charAt(0).toUpperCase()`: `''` for the empty word. */
  function Initial(word: string): (r: string)
    ensures |r| <= 1
    ensures word != "" ==> r == [UpperChar(word[0])]
    ensures word == "" ==> r == ""
  {
    if word == "" then "" else [UpperChar(word[0])]
  }

  function InitialOf(): string -> string {
    (word: string) => Initial(word)
  }

  /** `getInitials`: split on single spaces, drop the stopwords, keep each
      remaining word's first character in upper case, join without separator. */
  function GetInitials(name: string): string {
    Join(Map(Filter(Split(name, ' '), KeepWord()), InitialOf()), "")
  }

  /** Joining pieces of at most one character, none a lower-case letter,
      gives at most one character per piece and no lower-case letter. */
  lemma {:induction false} JoinShortPieces(parts: seq<string>)
    requires forall k :: 0 <= k < |parts| ==> |parts[k]| <= 1 && forall j :: 0 <= j < |parts[k]| ==> !IsLowerAscii(parts[k][j])
    ensures |Join(parts, "")| <= |parts|
    ensures forall j :: 0 <= j < |Join(parts, "")| ==> !IsLowerAscii(Join(parts, "")[j])
  {
    if |parts| > 1 {
      JoinShortPieces(parts[1..]);
      var rest := Join(parts[1..], "");
      assert Join(parts, "") == parts[0] + rest;
      forall j | 0 <= j < |parts[0] + rest| ensures !IsLowerAscii((parts[0] + rest)[j]) {
        if j >= |parts[0]| {
          assert (parts[0] + rest)[j] == rest[j - |parts[0]|];
        }
      }
    }
  }

  /** Each space-separated piece gives at most one initial, and none is a
      lower-case letter. */
  lemma InitialsBound(name: string)
    ensures |GetInitials(name)| <= |Split(name, ' ')|
    ensures forall j :: 0 <= j < |GetInitials(name)| ==> !IsLowerAscii(GetInitials(name)[j])
  {
    var kept := Filter(Split(name, ' '), KeepWord());
    var parts := Map(kept, InitialOf());
    JoinShortPieces(parts);
  }

  /** A name made of stopwords only, in any case, has no initials. */
  lemma StopwordsOnlyNoInitials(name: string)
    requires forall k :: 0 <= k < |Split(name, ' ')| ==> Lower(Split(name, ' ')[k]) in Stopwords
    ensures GetInitials(name) == ""
  {
    FilterDropsAll(Split(name, ' '), KeepWord());
  }

  /** The initials are the upper-cased first characters of the kept words,
      one per word and in order, when no kept word is empty. */
  lemma InitialsOfKeptWords(name: string)
    ensures var kept := Filter(Split(name, ' '), KeepWord());
      (forall k :: 0 <= k < |kept| ==> kept[k] != "") ==>
        && |GetInitials(name)| == |kept|
        && forall k :: 0 <= k < |kept| ==> GetInitials(name)[k] == UpperChar(kept[k][0])
  {
    var kept := Filter(Split(name, ' '), KeepWord());
    if forall k :: 0 <= k < |kept| ==> kept[k] != "" {
      var parts := Map(kept, InitialOf());
      JoinSingles(parts);
      forall k | 0 <= k < |kept| ensures GetInitials(name)[k] == UpperChar(kept[k][0]) {
        assert parts[k] == Initial(kept[k]);
      }
    }
  }

  /** Joining one-character pieces gives their characters in order. */
  lemma {:induction false} JoinSingles(parts: seq<string>)
    requires forall k :: 0 <= k < |parts| ==> |parts[k]| == 1
    ensures |Join(parts, "")| == |parts|
    ensures forall k :: 0 <= k < |parts| ==> Join(parts, "")[k] == parts[k][0]
  {
    if |parts| > 1 {
      JoinSingles(parts[1..]);
      var rest := Join(parts[1..], "");
      assert Join(parts, "") == parts[0] + rest;
      forall k | 0 < k < |parts| ensures (parts[0] + rest)[k] == parts[k][0] {
        assert (parts[0] + rest)[k] == rest[k - 1] == parts[1..][k - 1][0];
      }
    }
  }

  /** The avatar's fallback text: the initials, only when there is no photo. */
  function AvatarInitials(user: User): (r: Option<string>)
  {
    if user.profilePhoto == "" then Some(GetInitials(user.name)) else None
  }

  lemma InitialsOnlyWithoutPhoto(user: User)
    ensures AvatarInitials(user).Some? <==> user.profilePhoto == ""
    ensures AvatarInitials(user).Some? ==> |AvatarInitials(user).value| <= |Split(user.name, ' ')|
  {
    InitialsBound(user.name);
  }
}
