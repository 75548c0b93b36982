/** The radio management page (`app/admin/radios/page.tsx`): the local list
    of radios, the set of radios with unsaved edits, and the handlers that
    edit, save, delete, add and initialise radios. A handler that sends a
    request returns the body it sends; the page does not look at the reply. */
module RadiosPage {
  import opened Json
  import opened Types
  import opened Strings
  import opened Seqs
  import opened ArraySort
  import opened RadiosRoute

  // ---------------------------------------------------------------------
  // parseInt and the page's order

  /** The length of the run of characters satisfying `p` that starts `s`. */
  function LeadingRun(s: string, p: char -> bool): (n: nat)
    ensures n <= |s|
    ensures forall i :: 0 <= i < n ==> p(s[i])
    ensures n < |s| ==> !p(s[n])
  {
    if s == [] || !p(s[0]) then 0 else 1 + LeadingRun(s[1..], p)
  }

  /** `parseInt(s)` in base 10: leading whitespace is skipped, then an
      optional sign, then the longest run of digits; None for `NaN` (no digit). */
  function ParseInt(s: string): (r: Option<int>)
  {
    var t := s[LeadingRun(s, IsWhitespace)..];
    var negative := t != [] && t[0] == '-';
    var u := if t != [] && (t[0] == '-' || t[0] == '+') then t[1..] else t;
    var n := LeadingRun(u, IsDigit);
    if n == 0 then None
    else Some(if negative then 0 - DigitsValue(u[..n]) else DigitsValue(u[..n]))
  }

  /** A non-empty string of digits parses to its value. */
  lemma ParseDigits(s: string)
    requires s != [] && AllDigits(s)
    ensures ParseInt(s) == Some(DigitsValue(s))
  {
    assert !IsWhitespace(s[0]);
    assert LeadingRun(s, IsWhitespace) == 0;
    assert s[0] != '-' && s[0] != '+';
    assert LeadingRun(s, IsDigit) == |s|;
    assert s[..|s|] == s;
  }

  /** The decimal form of a number parses back to it. */
  lemma ParseNatToString(n: nat)
    ensures ParseInt(NatToString(n)) == Some(n)
  {
    ParseDigits(NatToString(n));
    DigitsValueOfNatToString(n);
  }

  /** `(a, b) => parseInt(a.ID) - parseInt(b.ID)`. A `NaN` difference is
      taken by `sort` as 0. */
  function PageOrder(a: Radio, b: Radio): int {
    match (ParseInt(a.id), ParseInt(b.id))
    case (Some(x), Some(y)) => x - y
    case _ => 0
  }

  predicate NumericId(r: Radio) {
    ParseInt(r.id).Some?
  }

  /** On radios whose IDs parse, the page's comparator is a total preorder. */
  lemma PageOrderConsistent()
    ensures ConsistentOn(PageOrder, NumericId)
  {
  }

  /** Sorted by the page's order, numeric IDs never decrease. */
  lemma {:induction false} SortedIdsAscend(s: seq<Radio>, i: nat, j: nat)
    requires SortedBy(PageOrder, s) && i < j < |s| && NumericId(s[i]) && NumericId(s[j])
    ensures ParseInt(s[i].id).value <= ParseInt(s[j].id).value
  {
    assert PageOrder(s[i], s[j]) <= 0;
  }

  /** The fetched or edited list sorted by the page's order: a permutation,
      and sorted when every ID parses. */
  method SortById(radios: seq<Radio>) returns (r: seq<Radio>)
    ensures multiset(r) == multiset(radios)
    ensures (forall i :: 0 <= i < |radios| ==> NumericId(radios[i])) ==> SortedBy(PageOrder, r)
  {
    var a := new Radio[|radios|](i requires 0 <= i < |radios| => radios[i]);
    assert a[..] == radios;
    PageOrderConsistent();
    SortInPlace(a, PageOrder, NumericId);
    r := a[..];
  }

  // ---------------------------------------------------------------------
  // The default inventory

  function DefaultRadio(i: nat): Radio {
    Radio(NatToString(i + 1), "ICOM", Some(""), Some(false), Some(false), Absent, Absent)
  }

  /** `defaultInventory`: radios `"1"` to `"64"`, named `ICOM`, undamaged,
      with empty comments and no checkout properties. */
  function DefaultInventory(): (r: seq<Radio>)
    ensures |r| == 64
  {
    seq(64, i requires 0 <= i => DefaultRadio(i))
  }

  /** The default inventory keeps the route's invariant: distinct IDs and
      no radio with both flags set. */
  lemma DefaultInventoryValid()
    ensures Valid(DefaultInventory())
  {
    var s := DefaultInventory();
    forall i, j | 0 <= i < j < |s| ensures s[i].id != s[j].id {
      NatToStringInjective(i + 1, j + 1);
    }
  }

  /** The default inventory numbers its radios 1 to 64 in order, so it is
      sorted by the page's order. */
  lemma DefaultInventorySorted()
    ensures forall i :: 0 <= i < 64 ==> ParseInt(DefaultInventory()[i].id) == Some(i + 1)
    ensures SortedBy(PageOrder, DefaultInventory())
  {
    var s := DefaultInventory();
    forall i | 0 <= i < 64 ensures ParseInt(s[i].id) == Some(i + 1) {
      ParseNatToString(i + 1);
    }
  }

  // ---------------------------------------------------------------------
  // Field edits

  /** A `handleFieldChange(ID, field, value)` call for one of the fields the
      cards edit. */
  datatype FieldEdit =
    | EditComments(text: string)
    | EditPartiallyDamaged(flag: bool)
    | EditNonfunctional(flag: bool)
    | EditCheckedOutUser(user: Field<string>)
    | EditCheckoutDate(date: Field<string>)

  /** The radio with the field set; setting Nonfunctional to true also
      clears PartiallyDamaged. */
  function Edited(r: Radio, e: FieldEdit): Radio {
    match e
    case EditComments(text) => r.(comments := Some(text))
    case EditPartiallyDamaged(flag) => r.(partiallyDamaged := Some(flag))
    case EditNonfunctional(flag) =>
      if flag then r.(nonfunctional := Some(true), partiallyDamaged := Some(false))
      else r.(nonfunctional := Some(false))
    case EditCheckedOutUser(user) => r.(checkedOutUser := user)
    case EditCheckoutDate(date) => r.(checkoutDate := date)
  }

  /** An edit changes its own field and no other, except that Nonfunctional
      set to true clears PartiallyDamaged. ID and name never change. */
  lemma EditedChangesOnlyField(r: Radio, e: FieldEdit)
    ensures Edited(r, e).id == r.id && Edited(r, e).name == r.name
    ensures !e.EditComments? ==> Edited(r, e).comments == r.comments
    ensures !e.EditPartiallyDamaged? && !(e.EditNonfunctional? && e.flag) ==> Edited(r, e).partiallyDamaged == r.partiallyDamaged
    ensures !e.EditNonfunctional? ==> Edited(r, e).nonfunctional == r.nonfunctional
    ensures !e.EditCheckedOutUser? ==> Edited(r, e).checkedOutUser == r.checkedOutUser
    ensures !e.EditCheckoutDate? ==> Edited(r, e).checkoutDate == r.checkoutDate
    ensures e.EditNonfunctional? && e.flag ==> Edited(r, e).partiallyDamaged == Some(false) && ExclusiveFlags(Edited(r, e))
  {
  }

  function EditIfId(id: string, e: FieldEdit): Radio -> Radio {
    (r: Radio) => if r.id == id then Edited(r, e) else r
  }

  /** `radios.map(...)` of `handleFieldChange`. */
  function ApplyEdit(radios: seq<Radio>, id: string, e: FieldEdit): seq<Radio> {
    Map(radios, EditIfId(id, e))
  }

  /** The edit reaches every radio with the ID, and leaves the others and the
      order of the list alone. */
  lemma ApplyEditOnlyMatching(radios: seq<Radio>, id: string, e: FieldEdit)
    ensures |ApplyEdit(radios, id, e)| == |radios|
    ensures forall i :: 0 <= i < |radios| && radios[i].id != id ==> ApplyEdit(radios, id, e)[i] == radios[i]
    ensures forall i :: 0 <= i < |radios| && radios[i].id == id ==> ApplyEdit(radios, id, e)[i] == Edited(radios[i], e)
    ensures forall i :: 0 <= i < |radios| ==> ApplyEdit(radios, id, e)[i].id == radios[i].id
  {
  }

  /** Setting PartiallyDamaged on its own does not clear Nonfunctional: the
      page alone does not keep the flags exclusive (the card does). */
  lemma PageEditCanSetBothFlags()
    ensures var r := Radio("1", "ICOM", Some(""), Some(false), Some(true), Absent, Absent);
      ExclusiveFlags(r) && !ExclusiveFlags(Edited(r, EditPartiallyDamaged(true)))
  {
  }

  // ---------------------------------------------------------------------
  // Request bodies

  /** The PUT body of `handleSaveChanges`: the radio's properties but its name. */
  function SaveBody(r: Radio): RadioBody {
    RadioBody(Some(r.id), None, r.comments, r.partiallyDamaged, r.nonfunctional, r.checkedOutUser, r.checkoutDate)
  }

  /** Saving a radio whose properties are all present makes the stored radio
      with its ID and name equal to it. */
  lemma SaveRestores(stored: Radio, r: Radio)
    requires stored.id == r.id && stored.name == r.name && ExclusiveFlags(r)
    requires r.comments.Some? && r.partiallyDamaged.Some? && r.nonfunctional.Some?
    requires !r.checkedOutUser.Absent? && !r.checkoutDate.Absent?
    ensures UpdatedRadio(stored, SaveBody(r)) == r
  {
    var u := UpdatedRadio(stored, SaveBody(r));
    UpdatedKeepsUnsentFields(stored, SaveBody(r));
    if r.nonfunctional.value {
      assert IsTrue(r.nonfunctional) && !IsTrue(r.partiallyDamaged);
      assert !r.partiallyDamaged.value;
      assert r.partiallyDamaged == Some(r.partiallyDamaged.value);
    }
  }

  /** The POST body of the add handler: ID and Name. */
  function AddBody(id: string, name: string): RadioBody {
    RadioBody(Some(id), Some(name), None, None, None, Absent, Absent)
  }

  /** The radio the page adds to its list: no checkout properties at all. */
  function LocalNewRadio(id: string, name: string): Radio {
    Radio(id, name, Some(""), Some(false), Some(false), Absent, Absent)
  }

  function IdIsNot(id: string): Radio -> bool {
    (r: Radio) => r.id != id
  }

  /** The default inventory's POST bodies: each is accepted by an empty
      route in turn, since each carries an ID and a name and no earlier
      body has its ID. */
  lemma DefaultPostsAcceptable()
    ensures forall i :: 0 <= i < 64 ==> Truthy(FullBody(DefaultInventory()[i]).id)
    ensures forall i :: 0 <= i < 64 ==> Truthy(FullBody(DefaultInventory()[i]).name)
    ensures forall i, j :: 0 <= i < j < 64 ==> DefaultInventory()[i].id != DefaultInventory()[j].id
  {
    DefaultInventoryValid();
  }

  // ---------------------------------------------------------------------
  // The page state

  class Page {
    var radios: seq<Radio>
    var changed: set<string>

    constructor ()
      ensures radios == [] && changed == {}
    {
      radios := [];
      changed := {};
    }

    /** The fetch effect: the list as fetched, sorted by the page's order. */
    method Load(fetched: seq<Radio>)
      modifies this
      ensures multiset(radios) == multiset(fetched) && changed == old(changed)
      ensures (forall i :: 0 <= i < |fetched| ==> NumericId(fetched[i])) ==> SortedBy(PageOrder, radios)
    {
      radios := SortById(fetched);
    }

    /** `handleFieldChange`: the edit applied to every radio with the ID, and
        the ID recorded as changed. */
    method HandleFieldChange(id: string, e: FieldEdit)
      modifies this
      ensures radios == ApplyEdit(old(radios), id, e)
      ensures changed == old(changed) + {id}
    {
      radios := ApplyEdit(radios, id, e);
      changed := changed + {id};
    }

    /** `handleSaveChanges`: nothing for an unknown ID (the ID stays marked);
        otherwise the first radio with the ID is sent and the ID unmarked. */
    method HandleSaveChanges(id: string) returns (sent: Option<RadioBody>)
      modifies this
      ensures radios == old(radios)
      ensures Find(old(radios), IdIs(id)).None? ==> sent.None? && changed == old(changed)
      ensures Find(old(radios), IdIs(id)).Some? ==>
        sent == Some(SaveBody(Find(old(radios), IdIs(id)).value)) && changed == old(changed) - {id}
    {
      var radio := Find(radios, IdIs(id));
      if radio.None? {
        return None;
      }
      sent := Some(SaveBody(radio.value));
      changed := changed - {id};
    }

    /** `handleDeleteRadio`: the DELETE body's ID, and the list without any
        radio with that ID. */
    method HandleDeleteRadio(id: string) returns (sent: string)
      modifies this`radios
      ensures sent == id
      ensures radios == Filter(old(radios), IdIsNot(id))
    {
      sent := id;
      radios := Filter(radios, IdIsNot(id));
    }

    /** `handleAddNewRadio`: the POST body, and the list with the new radio
        added and sorted by the page's order. */
    method HandleAddNewRadio(id: string, name: string) returns (sent: RadioBody)
      modifies this`radios
      ensures sent == AddBody(id, name)
      ensures multiset(radios) == multiset(old(radios) + [LocalNewRadio(id, name)])
      ensures (forall i :: 0 <= i < |old(radios)| ==> NumericId(old(radios)[i])) && NumericId(LocalNewRadio(id, name))
              ==> SortedBy(PageOrder, radios)
    {
      sent := AddBody(id, name);
      var updated := radios + [LocalNewRadio(id, name)];
      radios := SortById(updated);
    }

    /** `handleInitializeInventory`: the list becomes the default inventory
        and one POST of the whole radio is sent per default radio. */
    method HandleInitializeInventory() returns (sent: seq<RadioBody>)
      modifies this`radios
      ensures radios == DefaultInventory()
      ensures |sent| == 64 && forall i :: 0 <= i < 64 ==> sent[i] == FullBody(DefaultInventory()[i])
    {
      radios := DefaultInventory();
      sent := Map(radios, (r: Radio) => FullBody(r));
    }
  }

  /** After a delete no radio with the ID is left, and every other radio is
      kept. */
  lemma DeleteLeavesOthers(radios: seq<Radio>, id: string, r: Radio)
    ensures r in Filter(radios, IdIsNot(id)) <==> r in radios && r.id != id
  {
    FilterMember(radios, IdIsNot(id), r);
  }
}
