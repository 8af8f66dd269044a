/** The state and handlers of the main page (src/app/page.tsx): loading the roster,
    adding a pet with its two default vaccines, the onboarding decision, and selection. */
module Page {
  import opened Supabase
  import opened Reminders
  import opened Store

  /** The five text inputs of the add-pet form. */
  datatype PetForm = PetForm(name: string, breed: string, age: string, weight: string, photoUrl: string)

  const EmptyForm: PetForm := PetForm("", "", "", "", "")

  /** The `health_status` every new pet gets. */
  const Healthy: string := "Saudável"

  /** Days from a default vaccine's date to its next dose. */
  const BoosterDays: int := 365

  /** The row `handleAddPet` inserts for the form's pet. */
  function PetInsertOf(user: string, form: PetForm): (p: PetInsert)
    ensures p.userId == user && p.name == form.name && p.breed == form.breed
    ensures p.age == Some(form.age) && p.weight == Some(form.weight) && p.photoUrl == Some(form.photoUrl)
    ensures p.healthStatus == Healthy
  {
    PetInsert(user, form.name, form.breed, Some(form.age), Some(form.weight), Some(form.photoUrl), Healthy)
  }

  /** The two vaccines created with every pet: V10 and Antirrábica, given today and due
      again on the day 365 * 24 h from now falls on. */
  function DefaultVaccines(petId: nat, nowMs: int): (vs: seq<VaccineInsert>)
    ensures |vs| == 2 && vs[0].name == "V10" && vs[1].name == "Antirrábica"
    ensures forall i :: 0 <= i < 2 ==> vs[i].petId == petId && vs[i].date == DayOf(nowMs)
    ensures forall i :: 0 <= i < 2 ==> vs[i].nextDate == vs[i].date + BoosterDays
  {
    var today := DayOf(nowMs);
    var next := DayOf(nowMs + BoosterDays * DayMs);
    NextDoseDay(nowMs);
    [VaccineInsert(petId, "V10", today, next), VaccineInsert(petId, "Antirrábica", today, next)]
  }

  /** A whole number of days added to an instant moves its UTC date by that many days. */
  lemma NextDoseDay(nowMs: int)
    ensures DayOf(nowMs + BoosterDays * DayMs) == DayOf(nowMs) + BoosterDays
  {
    var d := DayOf(nowMs);
    var e := d + BoosterDays;
    assert e * DayMs <= nowMs + BoosterDays * DayMs < e * DayMs + DayMs;
  }

  /** `roster` is what `loadPets` builds from the fetched `rows`: the same pets in the same
      order, each with its vaccine list, or `[]` where that query returned no data. */
  ghost predicate LoadedFrom(roster: seq<PetWithVaccines>, rows: seq<PetRow>, vaccineRows: seq<VaccineRow>)
  {
    |roster| == |rows| &&
    forall i :: 0 <= i < |rows| ==>
      roster[i].pet == rows[i] &&
      (roster[i].vaccines == [] || roster[i].vaccines == VaccineList(vaccineRows, rows[i].id))
  }

  /** Loading one more pet extends the roster by that pet. */
  lemma LoadedFromExtend(roster: seq<PetWithVaccines>, rows: seq<PetRow>, vaccineRows: seq<VaccineRow>,
                         i: nat, vaccines: seq<VaccineRow>)
    requires i < |rows| && LoadedFrom(roster, rows[..i], vaccineRows)
    requires vaccines == [] || vaccines == VaccineList(vaccineRows, rows[i].id)
    ensures LoadedFrom(roster + [PetWithVaccines(rows[i], vaccines)], rows[..i + 1], vaccineRows)
  {
    var r := roster + [PetWithVaccines(rows[i], vaccines)];
    forall k | 0 <= k < i + 1
      ensures r[k].pet == rows[..i + 1][k]
      ensures r[k].vaccines == [] || r[k].vaccines == VaccineList(vaccineRows, rows[..i + 1][k].id)
    {
      if k < i { assert r[k] == roster[k] && rows[..i][k] == rows[k]; }
    }
  }

  /** A loaded roster lists the user's pets newest first, every pet belongs to the user,
      and every vaccine list belongs to its pet and is ordered soonest due first. */
  lemma LoadedRosterOrdered(roster: seq<PetWithVaccines>, petRows: seq<PetRow>, vaccineRows: seq<VaccineRow>, user: string)
    requires LoadedFrom(roster, RosterRows(petRows, user), vaccineRows)
    ensures forall i, j :: 0 <= i < j < |roster| ==> roster[i].pet.createdAt >= roster[j].pet.createdAt
    ensures forall i :: 0 <= i < |roster| ==> roster[i].pet in petRows && roster[i].pet.userId == user
    ensures forall i :: 0 <= i < |roster| ==> SortedBy(roster[i].vaccines, SoonestDue)
    ensures forall i, v :: 0 <= i < |roster| && v in roster[i].vaccines ==>
              v in vaccineRows && v.petId == roster[i].pet.id
  {
    var rows := RosterRows(petRows, user);
    RosterRowsExact(petRows, user);
    forall i | 0 <= i < |roster|
      ensures SortedBy(roster[i].vaccines, SoonestDue)
      ensures forall v :: v in roster[i].vaccines ==> v in vaccineRows && v.petId == roster[i].pet.id
    {
      VaccineListExact(vaccineRows, rows[i].id);
    }
  }

  /** A loaded roster has one entry per row of the user: N pets for N rows. */
  lemma LoadedRosterLength(roster: seq<PetWithVaccines>, petRows: seq<PetRow>, vaccineRows: seq<VaccineRow>, user: string)
    requires LoadedFrom(roster, RosterRows(petRows, user), vaccineRows)
    ensures |roster| == OwnedCount(petRows, user)
  {
    RosterRowsCount(petRows, user);
  }

  /** The roster and selection after a `loadPets` that ended in `outcome`: unchanged
      unless it loaded, and then built from `rows` with the first pet selected. */
  ghost predicate AfterLoad(outcome: LoadOutcome, roster: seq<PetWithVaccines>, selected: Option<PetWithVaccines>,
                            oldRoster: seq<PetWithVaccines>, oldSelected: Option<PetWithVaccines>,
                            rows: seq<PetRow>, vaccineRows: seq<VaccineRow>)
  {
    (outcome != Loaded ==> roster == oldRoster && selected == oldSelected) &&
    (outcome == Loaded ==> rows != [] && LoadedFrom(roster, rows, vaccineRows) && selected == Some(roster[0]))
  }

  /** The vaccine rows created for a new pet at instant `nowMs`: V10 and Antirrábica,
      both for that pet, dated today and due again 365 days later. */
  function DefaultVaccineRows(pet: PetRow, nowMs: int): (rs: seq<VaccineRow>)
    ensures |rs| == 2 && rs[0].name == "V10" && rs[1].name == "Antirrábica"
    ensures forall i :: 0 <= i < 2 ==>
              rs[i].petId == pet.id && rs[i].date == DayOf(nowMs) && rs[i].nextDate == DayOf(nowMs) + BoosterDays
  {
    VaccineRowsOf(DefaultVaccines(pet.id, nowMs), pet.id + 1, nowMs)
  }

  datatype LoadOutcome = NoUser | FetchFailed | NoPets | Loaded
  datatype AddOutcome = Skipped | PetInsertFailed | VaccineInsertFailed(pet: PetRow) | Added(pet: PetRow, reload: LoadOutcome)
  datatype CheckOutcome = NotSignedIn | SignedIn(load: LoadOutcome, petsData: Option<seq<PetRow>>)

  /** The `GuiaPetApp` component's state. */
  class GuiaPetPage {
    var pets: seq<PetWithVaccines>
    var selectedPet: Option<PetWithVaccines>
    var petForm: PetForm
    var showAddPet: bool
    var showOnboarding: bool
    /** Id of the signed-in user; `None` is the `null` user. */
    var user: Option<string>
    var loading: bool
    /** Set when the page has called `router.push('/login')`. */
    var sentToLogin: bool

    /** The initial `useState` values. */
    constructor ()
      ensures pets == [] && selectedPet == None && petForm == EmptyForm
      ensures !showAddPet && !showOnboarding && user == None && loading && !sentToLogin
      ensures SelectionListed(pets, selectedPet)
    {
      pets, selectedPet, petForm := [], None, EmptyForm;
      showAddPet, showOnboarding := false, false;
      user, loading, sentToLogin := None, true, false;
    }

    /** `loadPets(userId)`.  The per-pet vaccine queries run one after another here; they
        are independent, so the result is that of `Promise.all`. */
    method LoadPets(store: Tables, userId: Option<string>) returns (outcome: LoadOutcome)
      requires SelectionListed(pets, selectedPet)
      modifies this`pets, this`selectedPet
      ensures SelectionListed(pets, selectedPet)
      ensures outcome == NoUser <==> !Truthy(userId)
      ensures outcome == NoPets ==> RosterRows(store.pets, userId.value) == []
      ensures outcome != Loaded ==> pets == old(pets) && selectedPet == old(selectedPet)
      ensures outcome == Loaded ==>
                RosterRows(store.pets, userId.value) != [] &&
                LoadedFrom(pets, RosterRows(store.pets, userId.value), store.vaccines) &&
                selectedPet == Some(pets[0])
    {
      if !Truthy(userId) {
        return NoUser;
      }
      var fetched := store.SelectPets(userId.value);
      if fetched.Err? {
        return FetchFailed;
      }
      var rows := fetched.value;
      if |rows| == 0 {
        return NoPets;
      }
      var loaded: seq<PetWithVaccines> := [];
      var i := 0;
      while i < |rows|
        invariant i <= |rows|
        invariant LoadedFrom(loaded, rows[..i], store.vaccines)
      {
        var fetchedVaccines := store.SelectVaccines(rows[i].id);
        var vaccines := if fetchedVaccines.Some? then fetchedVaccines.value else [];
        LoadedFromExtend(loaded, rows, store.vaccines, i, vaccines);
        loaded := loaded + [PetWithVaccines(rows[i], vaccines)];
        i := i + 1;
      }
      assert rows[..i] == rows;
      pets := loaded;
      selectedPet := Some(loaded[0]);
      outcome := Loaded;
    }

    /** `handleAddPet()` at instant `nowMs`: guard, pet insert, then the default vaccines,
        reload and reset.  Each failure ends the handler with an alert and leaves the page
        as it was. */
    method HandleAddPet(store: Tables, nowMs: int) returns (outcome: AddOutcome)
      requires store.Valid() && SelectionListed(pets, selectedPet)
      modifies this`pets, this`selectedPet, this`petForm, this`showAddPet, store
      ensures store.Valid() && SelectionListed(pets, selectedPet)
      ensures outcome == Skipped <==> old(petForm.name == "" || petForm.breed == "" || user.None?)
      ensures outcome == Skipped || outcome == PetInsertFailed ==>
                store.pets == old(store.pets) && store.vaccines == old(store.vaccines)
      ensures !outcome.Added? ==>
                pets == old(pets) && selectedPet == old(selectedPet) &&
                petForm == old(petForm) && showAddPet == old(showAddPet)
      ensures outcome.VaccineInsertFailed? || outcome.Added? ==>
                store.pets == old(store.pets) + [outcome.pet] &&
                outcome.pet == PetRowOf(PetInsertOf(old(user).value, old(petForm)), outcome.pet.id, nowMs)
      ensures outcome.VaccineInsertFailed? ==> store.vaccines == old(store.vaccines)
      ensures outcome.Added? ==> store.vaccines == old(store.vaccines) + DefaultVaccineRows(outcome.pet, nowMs)
      ensures outcome.Added? ==>
                petForm == EmptyForm && !showAddPet &&
                outcome.reload != NoPets && (outcome.reload == NoUser <==> old(user).value == "") &&
                AfterLoad(outcome.reload, pets, selectedPet, old(pets), old(selectedPet),
                          RosterRows(store.pets, old(user).value), store.vaccines)
    {
      if petForm.name == "" || petForm.breed == "" || user.None? {
        return Skipped;
      }
      var inserted := store.InsertPet(PetInsertOf(user.value, petForm), nowMs);
      if inserted.Err? {
        return PetInsertFailed;
      }
      outcome := AddVaccinesAndReload(store, inserted.value, nowMs);
    }

    /** The rest of `handleAddPet` once the pet row `newPet` exists: insert its two
        default vaccines, then reload the roster, clear the form and close the dialog. */
    method AddVaccinesAndReload(store: Tables, newPet: PetRow, nowMs: int) returns (outcome: AddOutcome)
      requires store.Valid() && newPet in store.pets && newPet.id + 1 == store.nextId
      requires SelectionListed(pets, selectedPet)
      modifies this`pets, this`selectedPet, this`petForm, this`showAddPet, store
      ensures store.Valid() && store.pets == old(store.pets)
      ensures SelectionListed(pets, selectedPet)
      ensures outcome == VaccineInsertFailed(newPet) || outcome.Added?
      ensures outcome.VaccineInsertFailed? ==>
                store.vaccines == old(store.vaccines) &&
                pets == old(pets) && selectedPet == old(selectedPet) &&
                petForm == old(petForm) && showAddPet == old(showAddPet)
      ensures outcome.Added? ==>
                outcome.pet == newPet &&
                store.vaccines == old(store.vaccines) + DefaultVaccineRows(newPet, nowMs) &&
                petForm == EmptyForm && !showAddPet &&
                outcome.reload != NoPets && (outcome.reload == NoUser <==> newPet.userId == "") &&
                AfterLoad(outcome.reload, pets, selectedPet, old(pets), old(selectedPet),
                          RosterRows(store.pets, newPet.userId), store.vaccines)
    {
      var ok := store.InsertVaccines(DefaultVaccines(newPet.id, nowMs), nowMs);
      if !ok {
        return VaccineInsertFailed(newPet);
      }
      RosterNonEmpty(store.pets, newPet);
      var reload := LoadPets(store, Some(newPet.userId));
      petForm := EmptyForm;
      showAddPet := false;
      outcome := Added(newPet, reload);
    }

    /** `checkUser()` given what `getUser()` produced: `Err` is a thrown error, `Ok(None)` the
        `null` user.  The onboarding flag is set iff the second pets query yields no data
        or no rows. */
    method CheckUser(store: Tables, auth: Result<Option<string>>) returns (outcome: CheckOutcome)
      requires SelectionListed(pets, selectedPet)
      modifies this`user, this`pets, this`selectedPet, this`showOnboarding, this`loading, this`sentToLogin
      ensures !loading && SelectionListed(pets, selectedPet)
      ensures outcome == NotSignedIn <==> auth.Err? || auth.value.None?
      ensures outcome == NotSignedIn ==>
                sentToLogin && user == old(user) && pets == old(pets) &&
                selectedPet == old(selectedPet) && showOnboarding == old(showOnboarding)
      ensures outcome.SignedIn? ==>
                user == auth.value && sentToLogin == old(sentToLogin) &&
                AfterLoad(outcome.load, pets, selectedPet, old(pets), old(selectedPet),
                          RosterRows(store.pets, auth.value.value), store.vaccines) &&
                (outcome.petsData.Some? ==> outcome.petsData.value == RosterRows(store.pets, auth.value.value)) &&
                (showOnboarding <==> old(showOnboarding) || outcome.petsData.None? || outcome.petsData.value == [])
    {
      if auth.Err? || auth.value.None? {
        sentToLogin := true;
        loading := false;
        return NotSignedIn;
      }
      var id := auth.value.value;
      user := Some(id);
      var load := LoadPets(store, user);
      // The source's second query has no `.order`; only whether it is empty is read,
      // so the ordered select stands in for it.
      var second := store.SelectPets(id);
      var petsData := if second.Ok? then Some(second.value) else None;
      if petsData.None? || |petsData.value| == 0 {
        showOnboarding := true;
      }
      loading := false;
      outcome := SignedIn(load, petsData);
    }

    /** `completeOnboarding()`. */
    method CompleteOnboarding()
      modifies this`showOnboarding
      ensures !showOnboarding
    {
      showOnboarding := false;
    }

    /** The onboarding "Finalizar" button: with a name and a breed it runs `handleAddPet`
        and then leaves onboarding whatever happened, since `handleAddPet` never throws. */
    method Finish(store: Tables, nowMs: int) returns (added: Option<AddOutcome>)
      requires store.Valid() && SelectionListed(pets, selectedPet)
      modifies this`pets, this`selectedPet, this`petForm, this`showAddPet, this`showOnboarding, store
      ensures store.Valid() && SelectionListed(pets, selectedPet)
      ensures added.Some? <==> old(petForm.name != "" && petForm.breed != "")
      ensures added.Some? ==> !showOnboarding && (added.value == Skipped <==> old(user).None?)
      ensures added.Some? && (added.value == Skipped || added.value == PetInsertFailed) ==>
                store.pets == old(store.pets) && store.vaccines == old(store.vaccines)
      ensures added.Some? && !added.value.Added? ==>
                pets == old(pets) && selectedPet == old(selectedPet) &&
                petForm == old(petForm) && showAddPet == old(showAddPet)
      ensures added.Some? && (added.value.VaccineInsertFailed? || added.value.Added?) ==>
                store.pets == old(store.pets) + [added.value.pet] &&
                added.value.pet == PetRowOf(PetInsertOf(old(user).value, old(petForm)), added.value.pet.id, nowMs)
      ensures added.Some? && added.value.VaccineInsertFailed? ==> store.vaccines == old(store.vaccines)
      ensures added.Some? && added.value.Added? ==>
                store.vaccines == old(store.vaccines) + DefaultVaccineRows(added.value.pet, nowMs) &&
                petForm == EmptyForm && !showAddPet &&
                added.value.reload != NoPets && (added.value.reload == NoUser <==> old(user).value == "") &&
                AfterLoad(added.value.reload, pets, selectedPet, old(pets), old(selectedPet),
                          RosterRows(store.pets, old(user).value), store.vaccines)
      ensures added.None? ==>
                showOnboarding == old(showOnboarding) && pets == old(pets) &&
                selectedPet == old(selectedPet) && petForm == old(petForm) &&
                showAddPet == old(showAddPet) &&
                store.pets == old(store.pets) && store.vaccines == old(store.vaccines)
    {
      if petForm.name != "" && petForm.breed != "" {
        var outcome := HandleAddPet(store, nowMs);
        CompleteOnboarding();
        added := Some(outcome);
      } else {
        added := None;
      }
    }

    /** Clicking the `i`-th entry of the "Meus Pets" list. */
    method SelectPet(i: nat)
      requires i < |pets|
      modifies this`selectedPet
      ensures selectedPet == Some(pets[i]) && SelectionListed(pets, selectedPet)
    {
      selectedPet := Some(pets[i]);
    }
  }
}
