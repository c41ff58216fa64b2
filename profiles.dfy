/** The storefront profiles (script.js:55-57, 108-115, 244-328): a list of
    profiles and the id of the current one, with save (create or update),
    use, delete and reset. */
module Profiles {
  import opened JsText
  import opened Wrappers
  import SheetUrl

  datatype Theme = Theme(accent: string, bg: string, card: string)

  /** One storefront configuration; `logo` is image data. */
  datatype Profile = Profile(id: string, name: string, desc: string, wa: string, sheet: string,
                             theme: Theme, logo: Option<string>)

  /** The raw values of the setup form. */
  datatype Form = Form(name: string, desc: string, wa: string, sheet: string,
                       accent: string, bg: string, card: string)

  /** The profile list and the current profile id. */
  datatype Store = Store(profiles: seq<Profile>, current: Option<string>)

  datatype SaveError = MissingField | InvalidSheetUrl

  /** JavaScript truthiness of a string that may be null. */
  predicate Truthy(s: Option<string>) {
    s.Some? && s.value != ""
  }

  /** The index of the profile that `profiles.find(p => p.id === id)` selects:
      the first one with that id, or None when there is none. */
  function Find(ps: seq<Profile>, id: Option<string>): (r: Option<nat>)
    ensures r.None? <==> forall k :: 0 <= k < |ps| ==> Some(ps[k].id) != id
    ensures r.Some? ==> r.value < |ps| && Some(ps[r.value].id) == id
                        && forall k :: 0 <= k < r.value ==> Some(ps[k].id) != id
  {
    if ps == [] then None
    else if Some(ps[0].id) == id then Some(0)
    else
      match Find(ps[1..], id)
      case None => None
      case Some(i) => Some(i + 1)
  }

  /** `getCurrentProfile()`: the first profile whose id is the current id, or null. */
  function CurrentProfile(st: Store): (r: Option<Profile>)
    ensures r.None? <==> forall k :: 0 <= k < |st.profiles| ==> Some(st.profiles[k].id) != st.current
    ensures r.Some? ==> r.value in st.profiles && Some(r.value.id) == st.current
    ensures r.Some? ==> Find(st.profiles, st.current).Some?
                        && r.value == st.profiles[Find(st.profiles, st.current).value]
  {
    match Find(st.profiles, st.current)
    case None => None
    case Some(i) => Some(st.profiles[i])
  }

  /** The form is complete: name, description, WhatsApp number and sheet link
      are all non-blank. */
  predicate Complete(form: Form) {
    Trim(form.name) != "" && Trim(form.desc) != "" && Trim(form.wa) != "" && Trim(form.sheet) != ""
  }

  /** `dataset.logoData || null`. */
  function LogoData(logo: Option<string>): Option<string> {
    if Truthy(logo) then logo else None
  }

  /** The fields of `p` overwritten from the form (script.js:268-273); the
      logo is replaced only when new logo data was given. */
  function Overwrite(p: Profile, form: Form, logo: Option<string>): (q: Profile)
    ensures q.id == p.id
    ensures q.logo == (if Truthy(logo) then logo else p.logo)
  {
    p.(name := Trim(form.name), desc := Trim(form.desc), wa := Trim(form.wa), sheet := Trim(form.sheet),
       theme := Theme(form.accent, form.bg, form.card), logo := if Truthy(logo) then logo else p.logo)
  }

  /** The profile built for a new id (script.js:278-287; the creation time is left out). */
  function Fresh(id: string, form: Form, logo: Option<string>): Profile {
    Profile(id, Trim(form.name), Trim(form.desc), Trim(form.wa), Trim(form.sheet),
            Theme(form.accent, form.bg, form.card), LogoData(logo))
  }

  /** The saved profile carries the trimmed form values and its theme. */
  predicate HoldsForm(p: Profile, form: Form) {
    p.name == Trim(form.name) && p.desc == Trim(form.desc) && p.wa == Trim(form.wa)
    && p.sheet == Trim(form.sheet) && p.theme == Theme(form.accent, form.bg, form.card)
  }

  /** Whether `saveProfile` updates an existing profile: the current id is
      set and names a profile. */
  predicate Updates(st: Store) {
    Truthy(st.current) && Find(st.profiles, st.current).Some?
  }

  /** `saveProfile()` with the form values, the uploaded logo data and the id
      `uid()` would draw. */
  function Save(st: Store, form: Form, logo: Option<string>, freshId: string): (r: Result<Store, SaveError>)
    requires freshId != "" && forall k :: 0 <= k < |st.profiles| ==> st.profiles[k].id != freshId
    ensures r.Failure? <==> !Complete(form) || !SheetUrl.ValidateSheetUrl(Trim(form.sheet))
    ensures r.Failure? ==> (r.error == MissingField <==> !Complete(form))
    ensures r.Success? && Updates(st) ==>
              var i := Find(st.profiles, st.current).value;
              && r.value.current == st.current
              && |r.value.profiles| == |st.profiles|
              && r.value.profiles[i] == Overwrite(st.profiles[i], form, logo)
              && forall k :: 0 <= k < |st.profiles| && k != i ==> r.value.profiles[k] == st.profiles[k]
    ensures r.Success? && !Updates(st) ==>
              && r.value.profiles == st.profiles + [Fresh(freshId, form, logo)]
              && r.value.current == Some(freshId)
  {
    if !Complete(form) then Failure(MissingField)
    else if !SheetUrl.ValidateSheetUrl(Trim(form.sheet)) then Failure(InvalidSheetUrl)
    else if Updates(st) then
      var i := Find(st.profiles, st.current).value;
      Success(st.(profiles := st.profiles[i := Overwrite(st.profiles[i], form, logo)]))
    else
      Success(Store(st.profiles + [Fresh(freshId, form, logo)], Some(freshId)))
  }

  /** An incomplete form, or a complete one with an invalid sheet link, is rejected. */
  lemma SaveRejects(st: Store, form: Form, logo: Option<string>, freshId: string)
    requires freshId != "" && forall k :: 0 <= k < |st.profiles| ==> st.profiles[k].id != freshId
    ensures !Complete(form) ==> Save(st, form, logo, freshId) == Failure(MissingField)
    ensures Complete(form) && !SheetUrl.ValidateSheetUrl(Trim(form.sheet)) ==>
              Save(st, form, logo, freshId) == Failure(InvalidSheetUrl)
  {
  }

  /** A valid form saved over the current profile `i` overwrites it in place. */
  lemma SaveUpdates(st: Store, form: Form, logo: Option<string>, freshId: string, i: nat)
    requires freshId != "" && forall k :: 0 <= k < |st.profiles| ==> st.profiles[k].id != freshId
    requires Complete(form) && SheetUrl.ValidateSheetUrl(Trim(form.sheet))
    requires Truthy(st.current) && Find(st.profiles, st.current) == Some(i)
    ensures Save(st, form, logo, freshId) == Success(st.(profiles := st.profiles[i := Overwrite(st.profiles[i], form, logo)]))
  {
  }

  /** A valid form saved without a current profile appends a fresh one. */
  lemma SaveAppends(st: Store, form: Form, logo: Option<string>, freshId: string)
    requires freshId != "" && forall k :: 0 <= k < |st.profiles| ==> st.profiles[k].id != freshId
    requires Complete(form) && SheetUrl.ValidateSheetUrl(Trim(form.sheet))
    requires !Updates(st)
    ensures Save(st, form, logo, freshId) == Success(Store(st.profiles + [Fresh(freshId, form, logo)], Some(freshId)))
  {
  }

  /** `useProfile(id)`: switches to a known id, ignores an unknown one. */
  function Use(st: Store, id: string): (r: Store)
    ensures r.profiles == st.profiles
    ensures Find(st.profiles, Some(id)).None? ==> r == st
    ensures Find(st.profiles, Some(id)).Some? ==> r.current == Some(id)
  {
    if Find(st.profiles, Some(id)).Some? then st.(current := Some(id)) else st
  }

  /** `profiles.filter(p => p.id !== id)`. */
  function Drop(ps: seq<Profile>, id: string): (r: seq<Profile>)
    ensures |r| <= |ps|
    ensures forall p :: p in r <==> p in ps && p.id != id
    ensures (forall k :: 0 <= k < |ps| ==> ps[k].id != id) ==> r == ps
  {
    if ps == [] then []
    else (if ps[0].id == id then [] else [ps[0]]) + Drop(ps[1..], id)
  }

  /** `deleteCurrentProfile()` after the confirmation dialog answered
      `confirmed`: nothing without a current id or without confirmation;
      otherwise every profile with the current id goes and no profile is current. */
  function Delete(st: Store, confirmed: bool): (r: Store)
    ensures !Truthy(st.current) || !confirmed ==> r == st
    ensures Truthy(st.current) && confirmed ==>
              && r.current == None
              && r.profiles == Drop(st.profiles, st.current.value)
              && forall k :: 0 <= k < |r.profiles| ==> Some(r.profiles[k].id) != st.current
  {
    if !Truthy(st.current) || !confirmed then st
    else Store(Drop(st.profiles, st.current.value), None)
  }

  /** `resetProfiles()` after the confirmation dialog answered `confirmed`. */
  function Reset(st: Store, confirmed: bool): (r: Store)
    ensures !confirmed ==> r == st
    ensures confirmed ==> r.profiles == [] && r.current == None && CurrentProfile(r) == None
  {
    if confirmed then Store([], None) else st
  }

  // ---------------------------------------------------------------------------
  // properties across operations

  /** No two profiles share an id. */
  predicate UniqueIds(ps: seq<Profile>) {
    forall i, j :: 0 <= i < j < |ps| ==> ps[i].id != ps[j].id
  }

  /** The first profile with an id is found again after profiles kept their ids. */
  lemma {:induction false} FindSameIds(ps: seq<Profile>, qs: seq<Profile>, id: Option<string>)
    requires |ps| == |qs| && forall k :: 0 <= k < |ps| ==> ps[k].id == qs[k].id
    ensures Find(qs, id) == Find(ps, id)
    decreases |ps|
  {
    if ps != [] {
      FindSameIds(ps[1..], qs[1..], id);
    }
  }

  /** After a successful save the current profile is the saved one: it holds
      the form's values, and using its id again changes nothing. */
  lemma SaveMakesCurrent(st: Store, form: Form, logo: Option<string>, freshId: string)
    requires freshId != "" && forall k :: 0 <= k < |st.profiles| ==> st.profiles[k].id != freshId
    requires Save(st, form, logo, freshId).Success?
    ensures var st' := Save(st, form, logo, freshId).value;
            && CurrentProfile(st').Some?
            && HoldsForm(CurrentProfile(st').value, form)
            && Use(st', CurrentProfile(st').value.id) == st'
  {
    var st' := Save(st, form, logo, freshId).value;
    if Updates(st) {
      var i := Find(st.profiles, st.current).value;
      UpdatedIsCurrent(st, i, Overwrite(st.profiles[i], form, logo), st');
    } else {
      AppendedIsCurrent(st, Fresh(freshId, form, logo), st');
    }
  }

  /** Overwriting the current profile in place leaves it current. */
  lemma UpdatedIsCurrent(st: Store, i: nat, q: Profile, st': Store)
    requires Find(st.profiles, st.current) == Some(i)
    requires q.id == st.profiles[i].id
    requires st' == Store(st.profiles[i := q], st.current)
    ensures CurrentProfile(st') == Some(q)
    ensures Use(st', q.id) == st'
  {
    FindSameIds(st.profiles, st'.profiles, st.current);
  }

  /** Appending a profile with a new id and selecting it makes it current. */
  lemma AppendedIsCurrent(st: Store, p: Profile, st': Store)
    requires forall k :: 0 <= k < |st.profiles| ==> st.profiles[k].id != p.id
    requires st' == Store(st.profiles + [p], Some(p.id))
    ensures CurrentProfile(st') == Some(p)
    ensures Use(st', p.id) == st'
  {
    FindAfterAppend(st.profiles, p);
  }

  /** The id of an appended profile that no earlier profile has is found at the end. */
  lemma {:induction false} FindAfterAppend(ps: seq<Profile>, p: Profile)
    requires forall k :: 0 <= k < |ps| ==> ps[k].id != p.id
    ensures Find(ps + [p], Some(p.id)) == Some(|ps|)
    decreases |ps|
  {
    if ps != [] {
      assert (ps + [p])[1..] == ps[1..] + [p];
      FindAfterAppend(ps[1..], p);
    }
  }

  /** Saving, using, deleting and resetting never give two profiles one id. */
  lemma SaveKeepsIdsUnique(st: Store, form: Form, logo: Option<string>, freshId: string)
    requires UniqueIds(st.profiles)
    requires freshId != "" && forall k :: 0 <= k < |st.profiles| ==> st.profiles[k].id != freshId
    ensures Save(st, form, logo, freshId).Success? ==> UniqueIds(Save(st, form, logo, freshId).value.profiles)
  {
    var r := Save(st, form, logo, freshId);
    if r.Success? {
      if Updates(st) {
        var i := Find(st.profiles, st.current).value;
        OverwriteKeepsIdsUnique(st.profiles, i, Overwrite(st.profiles[i], form, logo));
      } else {
        AppendKeepsIdsUnique(st.profiles, Fresh(freshId, form, logo));
      }
    }
  }

  lemma OverwriteKeepsIdsUnique(ps: seq<Profile>, i: nat, q: Profile)
    requires UniqueIds(ps) && i < |ps| && q.id == ps[i].id
    ensures UniqueIds(ps[i := q])
  {
  }

  lemma AppendKeepsIdsUnique(ps: seq<Profile>, p: Profile)
    requires UniqueIds(ps) && forall k :: 0 <= k < |ps| ==> ps[k].id != p.id
    ensures UniqueIds(ps + [p])
  {
  }

  lemma {:induction false} DropKeepsIdsUnique(ps: seq<Profile>, id: string)
    requires UniqueIds(ps)
    ensures UniqueIds(Drop(ps, id))
    decreases |ps|
  {
    if ps != [] {
      DropKeepsIdsUnique(ps[1..], id);
      var rest := Drop(ps[1..], id);
      assert forall p :: p in rest ==> p.id != ps[0].id by {
        forall p | p in rest ensures p.id != ps[0].id {
          var k :| 0 <= k < |ps[1..]| && ps[1..][k] == p;
          assert ps[k + 1] == p;
        }
      }
    }
  }

  /** Deleting keeps the remaining profiles in their order: it works piece by
      piece, and leaves a piece without the id as it was. */
  lemma {:induction false} DropConcat(a: seq<Profile>, b: seq<Profile>, id: string)
    ensures Drop(a + b, id) == Drop(a, id) + Drop(b, id)
    decreases |a|
  {
    if a == [] {
      assert a + b == b;
    } else {
      assert (a + b)[1..] == a[1..] + b;
      DropConcat(a[1..], b, id);
    }
  }

  /** With unique ids, deleting the current profile removes exactly one
      profile when it exists, and none otherwise. */
  lemma {:induction false} DropUnique(ps: seq<Profile>, id: string)
    requires UniqueIds(ps)
    ensures |Drop(ps, id)| == |ps| - (if exists k :: 0 <= k < |ps| && ps[k].id == id then 1 else 0)
    decreases |ps|
  {
    if ps != [] {
      DropUnique(ps[1..], id);
      var here := ps[0].id == id;
      var later := exists k :: 0 <= k < |ps[1..]| && ps[1..][k].id == id;
      assert here ==> !later;
      assert later ==> exists k :: 0 <= k < |ps| && ps[k].id == id by {
        if later {
          var k :| 0 <= k < |ps[1..]| && ps[1..][k].id == id;
          assert ps[k + 1].id == id;
        }
      }
      assert (exists k :: 0 <= k < |ps| && ps[k].id == id) ==> here || later by {
        if exists k :: 0 <= k < |ps| && ps[k].id == id {
          var k :| 0 <= k < |ps| && ps[k].id == id;
          if k > 0 { assert ps[1..][k - 1].id == id; }
        }
      }
    }
  }

  // ---------------------------------------------------------------------------
  // the profile state of the page

  /** The globals `profiles` and `currentProfileId`. */
  class ProfileStore {
    var profiles: seq<Profile>
    var currentId: Option<string>

    function State(): Store
      reads this
    {
      Store(profiles, currentId)
    }

    constructor (saved: seq<Profile>, current: Option<string>)
      ensures State() == Store(saved, current)
    {
      profiles, currentId := saved, current;
    }

    /** `saveProfile()`: validates, then overwrites the current profile in
        place or appends a fresh one and makes it current. */
    method SaveProfile(form: Form, logo: Option<string>, freshId: string) returns (error: Option<SaveError>)
      requires freshId != "" && forall k :: 0 <= k < |profiles| ==> profiles[k].id != freshId
      modifies this
      ensures Save(old(State()), form, logo, freshId).Failure? ==>
                error == Some(Save(old(State()), form, logo, freshId).error) && State() == old(State())
      ensures Save(old(State()), form, logo, freshId).Success? ==>
                error == None && State() == Save(old(State()), form, logo, freshId).value
    {
      ghost var before := State();
      if !Complete(form) {
        SaveRejects(before, form, logo, freshId);
        return Some(MissingField);
      }
      if !SheetUrl.ValidateSheetUrl(Trim(form.sheet)) {
        SaveRejects(before, form, logo, freshId);
        return Some(InvalidSheetUrl);
      }
      // the profile whose id is current, if there is a current id
      var found := if Truthy(currentId) then Find(profiles, currentId) else None;
      if found.Some? {
        var i := found.value;
        SaveUpdates(before, form, logo, freshId, i);
        profiles := profiles[i := Overwrite(profiles[i], form, logo)];
        assert profiles == before.profiles[i := Overwrite(before.profiles[i], form, logo)];
        assert currentId == before.current;
      } else {
        SaveAppends(before, form, logo, freshId);
        profiles := profiles + [Fresh(freshId, form, logo)];
        currentId := Some(freshId);
        assert profiles == before.profiles + [Fresh(freshId, form, logo)];
      }
      error := None;
    }

    /** `useProfile(id)`. */
    method UseProfile(id: string)
      modifies this
      ensures State() == Use(old(State()), id)
    {
      if Find(profiles, Some(id)).None? {
        return;
      }
      currentId := Some(id);
    }

    /** `deleteCurrentProfile()`, given the answer to the confirmation dialog. */
    method DeleteCurrentProfile(confirmed: bool)
      modifies this
      ensures State() == Delete(old(State()), confirmed)
    {
      if !Truthy(currentId) {
        return;
      }
      if !confirmed {
        return;
      }
      profiles := Drop(profiles, currentId.value);
      currentId := None;
    }

    /** `resetProfiles()`, given the answer to the confirmation dialog. */
    method ResetProfiles(confirmed: bool)
      modifies this
      ensures State() == Reset(old(State()), confirmed)
    {
      if !confirmed {
        return;
      }
      profiles := [];
      currentId := None;
    }
  }
}
