/**
 * The two-step business wizard
 * (src/app/dashboard/businesses/_components/BusinessWizard.tsx): the record
 * being edited, the payload each step sends, the per-step baseline of what
 * was last saved (a step whose payload equals its baseline is not written
 * again), the edits the steps make, and the step navigation.
 *
 * JSON.stringify of a payload is modelled by the payload value itself:
 * its field order is fixed, so two payloads serialise alike exactly when
 * they are equal.
 */
module BusinessWizard {
  import opened Wrappers

  datatype Address = Address(
    id: string, code: string, name: string, address: string, number: string,
    complement: string, neighborhood: string, city: string, state: string,
    country: string, zipCode: string, disabled: bool)

  datatype BusinessDetails = BusinessDetails(
    id: string, code: string, createdAt: string, updatedAt: string,
    deletedAt: Option<string>, disabled: bool, name: string,
    responsible: Option<string>, email: Option<string>, phone: Option<string>,
    cnpj: Option<string>, addresses: seq<Address>, notes: Option<string>)

  /** A new, enabled address with every text field empty. */
  const EmptyAddress: Address := Address("", "", "", "", "", "", "", "", "", "", "", false)

  /** The record a new business starts from; `now` stands for the clock. */
  function EmptyBusiness(now: string): (b: BusinessDetails)
    ensures b.id == "" && b.code == "" && b.name == "" && !b.disabled && b.addresses == [EmptyAddress]
    ensures b.createdAt == now && b.updatedAt == now
    ensures b.deletedAt.None? && b.notes.None?
    ensures b.responsible.None? && b.email.None? && b.phone.None? && b.cnpj.None?
  {
    BusinessDetails("", "", now, now, None, false, "", None, None, None, None, [EmptyAddress], None)
  }

  // ---------------------------------------------------------------------
  // Steps and their payloads

  datatype StepKey = Basic | Addresses

  const Steps: seq<StepKey> := [Basic, Addresses]

  function StepTitle(s: StepKey): string {
    if s == Basic then "Dados Básicos" else "Endereços"
  }

  /** One address as the addresses step sends it: the id is left out when
      empty. */
  datatype AddressPayload = AddressPayload(
    id: Option<string>, code: string, name: string, address: string, number: string,
    complement: string, neighborhood: string, city: string, state: string,
    country: string, zipCode: string, disabled: bool)

  datatype StepPayload =
    | BasicPayload(id: string, code: string, createdAt: string, updatedAt: string,
                   deleted: bool, disabled: bool, name: string, responsible: Option<string>,
                   email: Option<string>, phone: Option<string>, cnpj: Option<string>,
                   notes: Option<string>, addresses: seq<Address>)
    | AddressesPayload(businessCode: string, items: seq<AddressPayload>)

  function AddressPayloadOf(a: Address): (p: AddressPayload)
    ensures p.id.None? <==> a.id == ""
  {
    AddressPayload(if a.id != "" then Some(a.id) else None, a.code, a.name, a.address, a.number,
                   a.complement, a.neighborhood, a.city, a.state, a.country, a.zipCode, a.disabled)
  }

  /** The address a payload describes, an omitted id read back as empty. */
  function AddressOfPayload(p: AddressPayload): Address {
    Address(if p.id.Some? then p.id.value else "", p.code, p.name, p.address, p.number,
            p.complement, p.neighborhood, p.city, p.state, p.country, p.zipCode, p.disabled)
  }

  /** Leaving out an empty id loses nothing: the address is recovered. */
  lemma AddressPayloadRoundTrip(a: Address)
    ensures AddressOfPayload(AddressPayloadOf(a)) == a
  {
  }

  /** The payload of a step for a record. The basic step reports
      `deleted_at` as a flag, set when it holds a non-empty text. */
  function PayloadOf(step: StepKey, b: BusinessDetails): (p: StepPayload)
    ensures step == Basic ==> p.BasicPayload? && (p.deleted <==> b.deletedAt.Some? && b.deletedAt.value != "")
    ensures step == Addresses ==> p.AddressesPayload? && p.businessCode == b.code && |p.items| == |b.addresses|
    ensures step == Addresses ==> forall i :: 0 <= i < |b.addresses| ==> AddressOfPayload(p.items[i]) == b.addresses[i]
  {
    match step
    case Basic =>
      BasicPayload(b.id, b.code, b.createdAt, b.updatedAt, b.deletedAt.Some? && b.deletedAt.value != "",
                   b.disabled, b.name, b.responsible, b.email, b.phone, b.cnpj, b.notes, b.addresses)
    case Addresses =>
      AddressesPayload(b.code, seq(|b.addresses|, i requires 0 <= i < |b.addresses| => AddressPayloadOf(b.addresses[i])))
  }

  /** Two records with the same addresses and code send the same addresses
      payload, and only those: the payload determines the address list. */
  lemma AddressesPayloadDeterminesList(b1: BusinessDetails, b2: BusinessDetails)
    ensures PayloadOf(Addresses, b1) == PayloadOf(Addresses, b2) <==>
      b1.code == b2.code && b1.addresses == b2.addresses
  {
    if PayloadOf(Addresses, b1) == PayloadOf(Addresses, b2) {
      assert |b1.addresses| == |b2.addresses|;
      forall i | 0 <= i < |b1.addresses| ensures b1.addresses[i] == b2.addresses[i] {
        assert AddressOfPayload(PayloadOf(Addresses, b1).items[i]) == b1.addresses[i];
      }
    }
  }

  /** Whether `deleted_at` holds text, the flag the basic step sends. */
  predicate IsDeleted(b: BusinessDetails) {
    b.deletedAt.Some? && b.deletedAt.value != ""
  }

  /** Two records send the same basic payload iff they agree on every field
      but `deleted_at` and agree on whether it holds text: replacing one
      deletion date by another never makes the basic step dirty. */
  lemma BasicPayloadDeterminesRecord(b1: BusinessDetails, b2: BusinessDetails)
    ensures PayloadOf(Basic, b1) == PayloadOf(Basic, b2) <==>
      b1.(deletedAt := None) == b2.(deletedAt := None) && (IsDeleted(b1) <==> IsDeleted(b2))
  {
  }

  // ---------------------------------------------------------------------
  // A loaded record

  /** An address as the server returns it: any field may be missing. */
  datatype RawAddress = RawAddress(
    id: Option<string>, code: Option<string>, name: Option<string>, address: Option<string>,
    number: Option<string>, complement: Option<string>, neighborhood: Option<string>,
    city: Option<string>, state: Option<string>, country: Option<string>,
    zipCode: Option<string>, disabled: Option<bool>)

  /** A loaded record: its own fields as sent, and the `addresses` field,
      which may not be a list at all. */
  datatype RawBusiness = RawBusiness(fields: BusinessDetails, addresses: Option<seq<RawAddress>>)

  function OrEmpty(o: Option<string>): string {
    if o.Some? then o.value else ""
  }

  /** A loaded text field: the value sent, or "" when it is missing. */
  predicate TextLoaded(sent: Option<string>, held: string) {
    sent == Some(held) || (sent.None? && held == "")
  }

  /** A missing text becomes "", a missing flag false. */
  function NormalizeAddress(raw: RawAddress): (a: Address)
    ensures TextLoaded(raw.id, a.id) && TextLoaded(raw.code, a.code) && TextLoaded(raw.name, a.name)
    ensures TextLoaded(raw.address, a.address) && TextLoaded(raw.number, a.number)
    ensures TextLoaded(raw.complement, a.complement) && TextLoaded(raw.neighborhood, a.neighborhood)
    ensures TextLoaded(raw.city, a.city) && TextLoaded(raw.state, a.state)
    ensures TextLoaded(raw.country, a.country) && TextLoaded(raw.zipCode, a.zipCode)
    ensures a.disabled <==> raw.disabled == Some(true)
  {
    Address(OrEmpty(raw.id), OrEmpty(raw.code), OrEmpty(raw.name), OrEmpty(raw.address),
            OrEmpty(raw.number), OrEmpty(raw.complement), OrEmpty(raw.neighborhood),
            OrEmpty(raw.city), OrEmpty(raw.state), OrEmpty(raw.country), OrEmpty(raw.zipCode),
            raw.disabled == Some(true))
  }

  function AsRaw(a: Address): RawAddress {
    RawAddress(Some(a.id), Some(a.code), Some(a.name), Some(a.address), Some(a.number),
               Some(a.complement), Some(a.neighborhood), Some(a.city), Some(a.state),
               Some(a.country), Some(a.zipCode), Some(a.disabled))
  }

  /** A complete address loads as itself; a fully missing one loads as the
      empty, enabled address. */
  lemma NormalizeAddressKeepsComplete(a: Address)
    ensures NormalizeAddress(AsRaw(a)) == a
    ensures NormalizeAddress(RawAddress(None, None, None, None, None, None, None, None, None, None, None, None)) == EmptyAddress
  {
  }

  /** The record the wizard holds after a load: the loaded fields, with the
      address list normalised ([] when the field is not a list). */
  function NormalizeLoaded(raw: RawBusiness): (b: BusinessDetails)
    ensures raw.addresses.None? ==> b.addresses == []
    ensures raw.addresses.Some? ==> |b.addresses| == |raw.addresses.value|
    ensures raw.addresses.Some? ==>
      forall i :: 0 <= i < |b.addresses| ==> b.addresses[i] == NormalizeAddress(raw.addresses.value[i])
    ensures b == raw.fields.(addresses := b.addresses)
  {
    var addrs := if raw.addresses.Some? then
      seq(|raw.addresses.value|, i requires 0 <= i < |raw.addresses.value| => NormalizeAddress(raw.addresses.value[i]))
    else [];
    raw.fields.(addresses := addrs)
  }

  /** The baseline recorded at load: each step's payload of the record. */
  function Baseline(b: BusinessDetails): (m: map<StepKey, StepPayload>)
    ensures Basic in m && Addresses in m
    ensures forall s :: s in m ==> m[s] == PayloadOf(s, b)
  {
    map[Basic := PayloadOf(Basic, b), Addresses := PayloadOf(Addresses, b)]
  }

  // ---------------------------------------------------------------------
  // Saving a step

  datatype Mode = Edit | Create

  /** The request a save sends. */
  datatype Write =
    | PostBusiness(payload: StepPayload)
    | PutBusiness(payload: StepPayload)
    | PutAddresses(payload: StepPayload)

  /** What saving the current step does, before any request is answered. */
  datatype SavePlan = NoRecord | Unchanged | NoCodeYet | Send(write: Write)

  function PlanSave(mode: Mode, business: Option<BusinessDetails>, step: StepKey,
                    lastSaved: map<StepKey, StepPayload>): (r: SavePlan)
    ensures r == NoRecord <==> business.None?
    ensures r.Send? ==> business.Some? && r.write.payload == PayloadOf(step, business.value)
    ensures r.Send? ==> !(step in lastSaved && lastSaved[step] == r.write.payload)
    ensures r.Send? && r.write.PutAddresses? ==> step == Addresses && business.value.code != ""
    ensures r == NoCodeYet ==> business.Some? && step == Addresses && business.value.code == ""
  {
    if business.None? then NoRecord
    else
      var b := business.value;
      var p := PayloadOf(step, b);
      if step in lastSaved && lastSaved[step] == p then Unchanged
      else if step == Basic then
        if mode == Create && b.id == "" then Send(PostBusiness(p)) else Send(PutBusiness(p))
      else if b.code == "" then NoCodeYet
      else Send(PutAddresses(p))
  }

  /** A step is skipped as unchanged exactly when its payload equals its
      recorded baseline. */
  lemma SkipIffBaselineMatches(mode: Mode, b: BusinessDetails, step: StepKey, lastSaved: map<StepKey, StepPayload>)
    ensures PlanSave(mode, Some(b), step, lastSaved) == Unchanged <==>
      step in lastSaved && lastSaved[step] == PayloadOf(step, b)
  {
  }

  /** Which request a changed step sends: the basic step POSTs only for a
      new record not created yet and PUTs otherwise; the addresses step is
      skipped while the record has no code. Every request carries the
      step's payload. */
  lemma WriteSelection(mode: Mode, b: BusinessDetails, step: StepKey, lastSaved: map<StepKey, StepPayload>)
    requires !(step in lastSaved && lastSaved[step] == PayloadOf(step, b))
    ensures var plan := PlanSave(mode, Some(b), step, lastSaved);
      && (plan.Send? ==> plan.write.payload == PayloadOf(step, b))
      && (step == Basic ==> plan.Send? && (plan.write.PostBusiness? <==> mode == Create && b.id == ""))
      && (step == Basic ==> !plan.write.PutAddresses?)
      && (step == Addresses ==> (plan == NoCodeYet <==> b.code == ""))
      && (step == Addresses && b.code != "" ==> plan == Send(PutAddresses(PayloadOf(Addresses, b))))
  {
  }

  /** Right after a load, saving any step of the unedited record writes
      nothing. */
  lemma LoadedRecordIsClean(mode: Mode, raw: RawBusiness, step: StepKey)
    ensures var b := NormalizeLoaded(raw);
      PlanSave(mode, Some(b), step, Baseline(b)) == Unchanged
  {
  }

  /** Once a step's payload is recorded, saving it again writes nothing; the
      other steps' baselines are untouched. */
  lemma RecordedStepIsClean(mode: Mode, b: BusinessDetails, step: StepKey, other: StepKey,
                            lastSaved: map<StepKey, StepPayload>)
    requires other != step
    ensures PlanSave(mode, Some(b), step, lastSaved[step := PayloadOf(step, b)]) == Unchanged
    ensures PlanSave(mode, Some(b), other, lastSaved[step := PayloadOf(step, b)]) == PlanSave(mode, Some(b), other, lastSaved)
  {
  }

  /** What the server answered to a request: a rejection (any error), or
      success with the record it returned (read only after a POST). */
  datatype Reply = Rejected | Accepted(record: BusinessDetails)

  /** Whether saving reports success: never without a record, always for a
      step with nothing to send, and for a request exactly when the server
      accepted it. */
  predicate SaveSucceeds(plan: SavePlan, reply: Reply) {
    match plan
    case NoRecord => false
    case Unchanged => true
    case NoCodeYet => true
    case Send(_) => reply.Accepted?
  }

  /** The message shown when the server rejects a step's write. */
  function SaveError(step: StepKey): string {
    "Falha ao salvar passo \"" + StepTitle(step) + "\""
  }

  // ---------------------------------------------------------------------
  // Edits

  datatype BusinessTextField =
    | BusinessId | BusinessCode | CreatedAt | UpdatedAt | DeletedAt | BusinessName
    | Responsible | Email | Phone | Cnpj | Notes

  datatype FieldEdit = SetBusinessText(field: BusinessTextField, value: string) | SetBusinessDisabled(flag: bool)

  /** The text of a field (a plain text field always has one). */
  function BusinessText(b: BusinessDetails, f: BusinessTextField): Option<string> {
    match f
    case BusinessId => Some(b.id)
    case BusinessCode => Some(b.code)
    case CreatedAt => Some(b.createdAt)
    case UpdatedAt => Some(b.updatedAt)
    case DeletedAt => b.deletedAt
    case BusinessName => Some(b.name)
    case Responsible => b.responsible
    case Email => b.email
    case Phone => b.phone
    case Cnpj => b.cnpj
    case Notes => b.notes
  }

  /** handleFieldChange: `{ ...prev, [field]: value }`. Only the named field
      changes, to the value given; addresses and the other fields stay. */
  function ApplyFieldEdit(b: BusinessDetails, e: FieldEdit): (r: BusinessDetails)
    ensures r.addresses == b.addresses
    ensures e.SetBusinessText? ==>
      && r.disabled == b.disabled
      && forall g :: BusinessText(r, g) == if g == e.field then Some(e.value) else BusinessText(b, g)
    ensures e.SetBusinessDisabled? ==>
      r.disabled == e.flag && forall g :: BusinessText(r, g) == BusinessText(b, g)
  {
    match e
    case SetBusinessDisabled(flag) => b.(disabled := flag)
    case SetBusinessText(f, v) =>
      match f
      case BusinessId => b.(id := v)
      case BusinessCode => b.(code := v)
      case CreatedAt => b.(createdAt := v)
      case UpdatedAt => b.(updatedAt := v)
      case DeletedAt => b.(deletedAt := Some(v))
      case BusinessName => b.(name := v)
      case Responsible => b.(responsible := Some(v))
      case Email => b.(email := Some(v))
      case Phone => b.(phone := Some(v))
      case Cnpj => b.(cnpj := Some(v))
      case Notes => b.(notes := Some(v))
  }

  datatype AddressTextField =
    | AddressId | AddressCode | AddressName | Street | StreetNumber | Complement
    | Neighborhood | City | State | Country | ZipCode

  datatype AddressEdit = SetAddressText(field: AddressTextField, value: string) | SetAddressDisabled(flag: bool)

  function AddressText(a: Address, f: AddressTextField): string {
    match f
    case AddressId => a.id
    case AddressCode => a.code
    case AddressName => a.name
    case Street => a.address
    case StreetNumber => a.number
    case Complement => a.complement
    case Neighborhood => a.neighborhood
    case City => a.city
    case State => a.state
    case Country => a.country
    case ZipCode => a.zipCode
  }

  function EditAddress(a: Address, e: AddressEdit): (r: Address)
    ensures e.SetAddressText? ==>
      r.disabled == a.disabled && forall g :: AddressText(r, g) == if g == e.field then e.value else AddressText(a, g)
    ensures e.SetAddressDisabled? ==>
      r.disabled == e.flag && forall g :: AddressText(r, g) == AddressText(a, g)
  {
    match e
    case SetAddressDisabled(flag) => a.(disabled := flag)
    case SetAddressText(f, v) =>
      match f
      case AddressId => a.(id := v)
      case AddressCode => a.(code := v)
      case AddressName => a.(name := v)
      case Street => a.(address := v)
      case StreetNumber => a.(number := v)
      case Complement => a.(complement := v)
      case Neighborhood => a.(neighborhood := v)
      case City => a.(city := v)
      case State => a.(state := v)
      case Country => a.(country := v)
      case ZipCode => a.(zipCode := v)
  }

  /** handleAddressChange: edits the address at `idx` (none when `idx` is
      out of range); the other addresses and the length stay. */
  function ApplyAddressEdit(addrs: seq<Address>, idx: int, e: AddressEdit): (r: seq<Address>)
    ensures |r| == |addrs|
    ensures forall j :: 0 <= j < |addrs| && j != idx ==> r[j] == addrs[j]
    ensures 0 <= idx < |addrs| ==> r[idx] == EditAddress(addrs[idx], e)
  {
    seq(|addrs|, i requires 0 <= i < |addrs| => if i == idx then EditAddress(addrs[i], e) else addrs[i])
  }

  /** addAddress: one more, empty and enabled, address at the end. */
  function AddAddress(addrs: seq<Address>): (r: seq<Address>)
    ensures |r| == |addrs| + 1 && r[..|addrs|] == addrs && r[|addrs|] == EmptyAddress
  {
    addrs + [EmptyAddress]
  }

  /** removeAddress: `filter((_, i) => i !== idx)`, which drops exactly the
      address at idx (nothing when idx is out of range) and keeps the rest
      in order. */
  function RemoveAddress(addrs: seq<Address>, idx: int): (r: seq<Address>)
    ensures 0 <= idx < |addrs| ==> r == addrs[..idx] + addrs[idx + 1..]
    ensures !(0 <= idx < |addrs|) ==> r == addrs
  {
    if addrs == [] then []
    else
      var rest := RemoveAddress(addrs[1..], idx - 1);
      if idx == 0 then rest
      else
        assert 0 < idx < |addrs| ==> addrs[1..][..idx - 1] + addrs[1..][idx..] == addrs[1..idx] + addrs[idx + 1..];
        [addrs[0]] + rest
  }

  /** The remove button is shown only while there is more than one address. */
  predicate CanRemoveAddress(addrs: seq<Address>) {
    |addrs| > 1
  }

  /** A removal the page offers leaves at least one address, and removing
      an address just added restores the list. */
  lemma RemoveAddressProperties(addrs: seq<Address>, idx: int)
    ensures CanRemoveAddress(addrs) && 0 <= idx < |addrs| ==> |RemoveAddress(addrs, idx)| >= 1
    ensures RemoveAddress(AddAddress(addrs), |addrs|) == addrs
  {
    assert AddAddress(addrs)[..|addrs|] == addrs;
  }

  // ---------------------------------------------------------------------
  // The wizard

  class Wizard {
    const mode: Mode
    var business: Option<BusinessDetails>
    var error: Option<string>
    var currentStep: nat
    var isSavingStep: bool
    var isLoading: bool
    /** lastSavedPayloads: the baseline of each step. */
    var lastSaved: map<StepKey, StepPayload>
    var showSuccess: bool

    predicate Valid()
      reads this
    {
      currentStep < |Steps|
    }

    /** A new wizard: on step 0 with no baseline; in create mode it holds a
        blank record, in edit mode nothing until the record loads. */
    constructor(mode: Mode, now: string)
      ensures Valid() && this.mode == mode && currentStep == 0
      ensures business == if mode == Edit then None else Some(EmptyBusiness(now))
      ensures isLoading == (mode == Edit)
      ensures error == None && !isSavingStep && lastSaved == map[] && !showSuccess
    {
      this.mode := mode;
      business := if mode == Edit then None else Some(EmptyBusiness(now));
      error := None;
      currentStep := 0;
      isSavingStep := false;
      isLoading := mode == Edit;
      lastSaved := map[];
      showSuccess := false;
    }

    /** In edit mode with an id, loads the record: on success it holds the
        normalised record and its baseline; on failure an error. */
    method Load(businessId: string, reply: Option<RawBusiness>)
      modifies this`business, this`error, this`isLoading, this`lastSaved
      ensures !(mode == Edit && businessId != "") ==>
        business == old(business) && error == old(error) && isLoading == old(isLoading) && lastSaved == old(lastSaved)
      ensures mode == Edit && businessId != "" && reply.Some? ==>
        && business == Some(NormalizeLoaded(reply.value))
        && lastSaved == Baseline(NormalizeLoaded(reply.value))
        && error == None && !isLoading
      ensures mode == Edit && businessId != "" && reply.None? ==>
        && business == old(business) && lastSaved == old(lastSaved)
        && error == Some("Falha ao carregar empresa.") && !isLoading
    {
      if mode == Edit && businessId != "" {
        error := None;
        isLoading := true;
        if reply.Some? {
          var normalized := NormalizeLoaded(reply.value);
          business := Some(normalized);
          var baseline: map<StepKey, StepPayload> := map[];
          var i := 0;
          while i < |Steps|
            invariant 0 <= i <= |Steps|
            invariant forall s :: s in baseline <==> s in Steps[..i]
            invariant forall s :: s in baseline ==> baseline[s] == PayloadOf(s, normalized)
          {
            baseline := baseline[Steps[i] := PayloadOf(Steps[i], normalized)];
            i := i + 1;
          }
          assert Steps[..i] == Steps;
          lastSaved := baseline;
        } else {
          error := Some("Falha ao carregar empresa.");
        }
        isLoading := false;
      }
    }

    method EditField(e: FieldEdit)
      modifies this`business
      ensures business == if old(business).Some? then Some(ApplyFieldEdit(old(business).value, e)) else None
    {
      if business.Some? {
        business := Some(ApplyFieldEdit(business.value, e));
      }
    }

    method EditAddressAt(idx: int, e: AddressEdit)
      modifies this`business
      ensures business == if old(business).Some? then
        Some(old(business).value.(addresses := ApplyAddressEdit(old(business).value.addresses, idx, e))) else None
    {
      if business.Some? {
        var b := business.value;
        business := Some(b.(addresses := ApplyAddressEdit(b.addresses, idx, e)));
      }
    }

    method AppendAddress()
      modifies this`business
      ensures business == if old(business).Some? then
        Some(old(business).value.(addresses := AddAddress(old(business).value.addresses))) else None
    {
      if business.Some? {
        var b := business.value;
        business := Some(b.(addresses := AddAddress(b.addresses)));
      }
    }

    method DropAddress(idx: int)
      modifies this`business
      ensures business == if old(business).Some? then
        Some(old(business).value.(addresses := RemoveAddress(old(business).value.addresses, idx))) else None
    {
      if business.Some? {
        var b := business.value;
        business := Some(b.(addresses := RemoveAddress(b.addresses, idx)));
      }
    }

    /**
     * saveCurrentStep: follows the plan for the current step. A request
     * that succeeds records the step's payload as its baseline (a POST also
     * takes the returned record); one that fails sets the step's error and
     * reports failure. Nothing else changes the baselines.
     */
    method SaveCurrentStep(reply: Reply) returns (ok: bool, sent: Option<Write>)
      requires Valid()
      modifies this`business, this`error, this`isSavingStep, this`lastSaved
      ensures Valid()
      ensures var step := Steps[currentStep];
        var plan := PlanSave(mode, old(business), step, old(lastSaved));
        && (plan.Send? <==> sent.Some?)
        && (plan.Send? ==> sent.value == plan.write)
        && (plan == NoRecord ==> !ok && error == old(error))
        && (plan == Unchanged ==> ok && error == old(error))
        && (plan == NoCodeYet ==> ok && error == None)
        && ok == SaveSucceeds(plan, reply)
        && (plan.Send? && reply.Rejected? ==> !ok && error == Some(SaveError(step)))
        && (plan.Send? && reply.Accepted? ==> ok && error == None)
        && lastSaved == (if plan.Send? && reply.Accepted? then old(lastSaved)[step := plan.write.payload] else old(lastSaved))
        && business == (if plan.Send? && plan.write.PostBusiness? && reply.Accepted? then Some(reply.record) else old(business))
        && isSavingStep == (old(isSavingStep) && (plan == NoRecord || plan == Unchanged))
    {
      sent := None;
      if business.None? {
        return false, None;
      }
      var b := business.value;
      var step := Steps[currentStep];
      var payload := PayloadOf(step, b);
      if step in lastSaved && lastSaved[step] == payload {
        return true, None;
      }
      isSavingStep := true;
      error := None;
      if step == Basic {
        if mode == Create && b.id == "" {
          sent := Some(PostBusiness(payload));
          if reply.Accepted? {
            business := Some(reply.record);
          }
        } else {
          sent := Some(PutBusiness(payload));
        }
      } else {
        if b.code == "" {
          isSavingStep := false;
          return true, None;
        }
        sent := Some(PutAddresses(payload));
      }
      if reply.Accepted? {
        lastSaved := lastSaved[step := payload];
        ok := true;
      } else {
        error := Some(SaveError(step));
        ok := false;
      }
      isSavingStep := false;
    }

    /** nextStep: saves, and on success advances unless on the last step. */
    method NextStep(reply: Reply) returns (ok: bool)
      requires Valid()
      modifies this`business, this`error, this`isSavingStep, this`lastSaved, this`currentStep
      ensures Valid()
      ensures var step := Steps[old(currentStep)];
        var plan := PlanSave(mode, old(business), step, old(lastSaved));
        && ok == SaveSucceeds(plan, reply)
        && error == (if plan == NoRecord || plan == Unchanged then old(error)
                     else if plan.Send? && reply.Rejected? then Some(SaveError(step)) else None)
        && lastSaved == (if plan.Send? && reply.Accepted? then old(lastSaved)[step := plan.write.payload] else old(lastSaved))
        && business == (if plan.Send? && plan.write.PostBusiness? && reply.Accepted? then Some(reply.record) else old(business))
        && isSavingStep == (old(isSavingStep) && (plan == NoRecord || plan == Unchanged))
      ensures currentStep == if ok && old(currentStep) < |Steps| - 1 then old(currentStep) + 1 else old(currentStep)
    {
      var sent;
      ok, sent := SaveCurrentStep(reply);
      if ok && currentStep < |Steps| - 1 {
        currentStep := currentStep + 1;
      }
    }

    /** prevStep: goes back one step unless on the first; never saves. */
    method PrevStep()
      requires Valid()
      modifies this`currentStep
      ensures Valid()
      ensures currentStep == if old(currentStep) > 0 then old(currentStep) - 1 else old(currentStep)
    {
      if currentStep > 0 {
        currentStep := currentStep - 1;
      }
    }

    /** The stepper: a click moves back to an earlier step and nowhere else. */
    method JumpTo(idx: nat)
      requires Valid()
      modifies this`currentStep
      ensures Valid()
      ensures currentStep == if idx < old(currentStep) then idx else old(currentStep)
    {
      if idx < currentStep {
        currentStep := idx;
      }
    }

    /** finalize: saves, and shows the success message only if that worked. */
    method Finalize(reply: Reply) returns (ok: bool)
      requires Valid()
      modifies this`business, this`error, this`isSavingStep, this`lastSaved, this`showSuccess
      ensures Valid()
      ensures var step := Steps[old(currentStep)];
        var plan := PlanSave(mode, old(business), step, old(lastSaved));
        && ok == SaveSucceeds(plan, reply)
        && error == (if plan == NoRecord || plan == Unchanged then old(error)
                     else if plan.Send? && reply.Rejected? then Some(SaveError(step)) else None)
        && lastSaved == (if plan.Send? && reply.Accepted? then old(lastSaved)[step := plan.write.payload] else old(lastSaved))
        && business == (if plan.Send? && plan.write.PostBusiness? && reply.Accepted? then Some(reply.record) else old(business))
        && isSavingStep == (old(isSavingStep) && (plan == NoRecord || plan == Unchanged))
      ensures currentStep == old(currentStep)
      ensures showSuccess == (old(showSuccess) || ok)
    {
      var sent;
      ok, sent := SaveCurrentStep(reply);
      if ok {
        showSuccess := true;
      }
    }
  }
}
