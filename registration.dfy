/** Candidate registration (election1/candidate/view.py): the early-return checks of
    `candidate_view` and `writein_candidate`, the rows they add to the Candidate and
    WriteinCandidate tables, the name fields `get_name_fields` offers for an office, and
    `deletecandidate`. The clock is the integer parameter `now`; whether a commit succeeds is
    the parameter `storageOk`. */
module Registration {
  import opened Common
  import opened Models

  /** The placeholder the party select submits when no party is chosen. */
  const NoPartySelected := "If candidate associated Please select"

  const SingleName := "Single Name"
  const Normal := "Normal"
  const RankChoice := "Rank Choice"
  const Measure := "Measure"

  /** Why a POST adds no row. */
  datatype Rejection =
    | NoElectionDates    // "Please set the Election Dates ..."
    | VotingStarted      // "You cannot add a candidate ... after the voting start time"
    | CsrfFailed         // a csrf_token entry among the form errors
    | FirstnameMissing   // "Firstname is missing in the form submission"
    | FieldMissing       // a select field absent from the form: a 400 from request.form[...]
    | FormInvalid        // the write-in form did not validate; the page is shown again
    | ClassNotSelected   // "Please select a valid option for class"
    | OfficeNotSelected  // "Please select a valid option for office"
    | LastnameRequired   // "Last name is required unless the ballot type is 'Single Name'"
    | CandidateExists    // "Candidate already exists for this class or group"
    | WriteinExists      // "Write-in candidate already exists for this class and office"

  /** The dates gate both registration screens share: a dates record must exist and the
      voting start must not have passed. */
  function DatesGate(cfg: Config, now: int): (r: Option<Rejection>)
    ensures r == Some(NoElectionDates) <==> |cfg.dates| == 0
    ensures r == Some(VotingStarted) <==> |cfg.dates| > 0 && now > cfg.dates[0].start
    ensures r.None? <==> |cfg.dates| > 0 && now <= cfg.dates[0].start
  {
    if !CheckDates(cfg.dates) then Some(NoElectionDates)
    else if AfterStartDate(cfg.dates, now) then Some(VotingStarted)
    else None
  }

  // ---------------------------------------------------------------- candidate_view

  /** The fields of a candidate POST; None when the field is absent from the form. */
  datatype CandidateForm = CandidateForm(
    firstname: Option<string>, lastname: Option<string>, classgrp: Option<string>,
    office: Option<string>, party: Option<string>)

  /** The columns of the Candidate row a POST would add. */
  datatype NewCandidate = NewCandidate(
    firstname: string, lastname: string, classgrp: Key, office: Key, party: Option<Key>)

  /** An absent lastname counts as the empty one. */
  function LastnameOf(form: CandidateForm): string {
    if form.lastname.Some? then form.lastname.value else ""
  }

  /** The party placeholder becomes NULL. */
  function NormaliseParty(party: string): (r: Option<Key>)
    ensures r.None? <==> party == NoPartySelected
    ensures r.Some? ==> r.value == party
  {
    if party == NoPartySelected then None else Some(party)
  }

  /** The lastname rule: an empty lastname is allowed only when the office's ballot type is
      exactly "Single Name"; an unknown office has no ballot type and so needs one. */
  predicate LastnameAccepted(cfg: Config, lastname: string, office: Key) {
    lastname != "" || GetBallotTypeName(cfg, Some(office)) == Some(SingleName)
  }

  /** Every field the view reads from the form is present. */
  predicate FieldsPresent(form: CandidateForm) {
    form.firstname.Some? && form.classgrp.Some? && form.office.Some? && form.party.Some?
  }

  /** The checks before the select fields passed: dates, CSRF and the presence of the fields. */
  predicate FormRead(cfg: Config, form: CandidateForm, csrfError: bool, now: int) {
    DatesGate(cfg, now).None? && !csrfError && FieldsPresent(form)
  }

  /** Class and office are both chosen. */
  predicate Selected(form: CandidateForm) {
    FieldsPresent(form) && form.classgrp.value != PleaseSelect && form.office.value != PleaseSelect
  }

  /** The POST branch of `candidate_view` up to the insert: each refusal holds exactly when
      every earlier check passed and its own failed, in the order of the view's checks. */
  function CandidateDecision(cfg: Config, cands: seq<Candidate>, form: CandidateForm, csrfError: bool, now: int)
    : (r: Result<NewCandidate, Rejection>)
    ensures r == Failure(NoElectionDates) <==> DatesGate(cfg, now) == Some(NoElectionDates)
    ensures r == Failure(VotingStarted) <==> DatesGate(cfg, now) == Some(VotingStarted)
    ensures r == Failure(CsrfFailed) <==> DatesGate(cfg, now).None? && csrfError
    ensures r == Failure(FirstnameMissing) <==> DatesGate(cfg, now).None? && !csrfError && form.firstname.None?
    ensures r == Failure(FieldMissing) <==>
      DatesGate(cfg, now).None? && !csrfError && form.firstname.Some? && !FieldsPresent(form)
    ensures r == Failure(ClassNotSelected) <==>
      FormRead(cfg, form, csrfError, now) && form.classgrp.value == PleaseSelect
    ensures r == Failure(OfficeNotSelected) <==>
      FormRead(cfg, form, csrfError, now) && form.classgrp.value != PleaseSelect && form.office.value == PleaseSelect
    ensures r == Failure(LastnameRequired) <==>
      FormRead(cfg, form, csrfError, now) && Selected(form) &&
      !LastnameAccepted(cfg, LastnameOf(form), form.office.value)
    ensures r == Failure(CandidateExists) <==>
      FormRead(cfg, form, csrfError, now) && Selected(form) &&
      LastnameAccepted(cfg, LastnameOf(form), form.office.value) &&
      CheckExistingCandidate(cands, form.firstname.value, LastnameOf(form), form.classgrp.value)
    ensures r.Success? <==>
      FormRead(cfg, form, csrfError, now) && Selected(form) &&
      LastnameAccepted(cfg, LastnameOf(form), form.office.value) &&
      !CheckExistingCandidate(cands, form.firstname.value, LastnameOf(form), form.classgrp.value)
    ensures r.Success? ==>
      r.value == NewCandidate(form.firstname.value, LastnameOf(form), form.classgrp.value,
                              form.office.value, NormaliseParty(form.party.value))
    ensures r != Failure(FormInvalid) && r != Failure(WriteinExists)
  {
    if DatesGate(cfg, now).Some? then Failure(DatesGate(cfg, now).value)
    else if csrfError then Failure(CsrfFailed)
    else if form.firstname.None? then Failure(FirstnameMissing)
    else if form.classgrp.None? || form.office.None? || form.party.None? then Failure(FieldMissing)
    else
      var firstname, lastname := form.firstname.value, LastnameOf(form);
      var classgrp, office := form.classgrp.value, form.office.value;
      if classgrp == PleaseSelect then Failure(ClassNotSelected)
      else if office == PleaseSelect then Failure(OfficeNotSelected)
      else if lastname == "" && GetBallotTypeName(cfg, Some(office)) != Some(SingleName) then Failure(LastnameRequired)
      else if CheckExistingCandidate(cands, firstname, lastname, classgrp) then Failure(CandidateExists)
      else Success(NewCandidate(firstname, lastname, classgrp, office, NormaliseParty(form.party.value)))
  }

  /** The same POST a second time, once its row is in the table, is refused as a duplicate. */
  lemma CandidateRegisteredOnce(cfg: Config, cands: seq<Candidate>, form: CandidateForm, csrfError: bool,
                                now: int, id: nat)
    requires CandidateDecision(cfg, cands, form, csrfError, now).Success?
    ensures var f := CandidateDecision(cfg, cands, form, csrfError, now).value;
      CandidateDecision(cfg, cands + [Candidate(id, f.firstname, f.lastname, f.classgrp, f.office, f.party)],
                        form, csrfError, now) == Failure(CandidateExists)
  {
    var f := CandidateDecision(cfg, cands, form, csrfError, now).value;
    var c := Candidate(id, f.firstname, f.lastname, f.classgrp, f.office, f.party);
    assert c in cands + [c];
  }

  /** The duplicate check ignores the office: the same name in the same class is refused for
      every other office too. */
  lemma DuplicateAcrossOffices(cfg: Config, cands: seq<Candidate>, form: CandidateForm, csrfError: bool,
                               now: int, c: Candidate)
    requires c in cands
    requires DatesGate(cfg, now).None? && !csrfError
    requires form.firstname == Some(c.firstname) && LastnameOf(form) == c.lastname
    requires form.classgrp == Some(c.classgrp) && c.classgrp != PleaseSelect
    requires form.office.Some? && form.office.value != PleaseSelect && form.party.Some?
    requires LastnameAccepted(cfg, c.lastname, form.office.value)
    ensures CandidateDecision(cfg, cands, form, csrfError, now) == Failure(CandidateExists)
  {
  }

  /** A "Measure" office is offered the first-name-only fields, yet a POST from them (no
      lastname field) is refused by the lastname rule. */
  lemma MeasureOfficeNeedsLastname(cfg: Config, cands: seq<Candidate>, form: CandidateForm, csrfError: bool, now: int)
    requires form.office.Some? && GetBallotTypeName(cfg, form.office) == Some(Measure)
    requires form.lastname.None?
    requires DatesGate(cfg, now).None? && !csrfError
    requires form.firstname.Some? && form.classgrp.Some? && form.party.Some?
    requires form.classgrp.value != PleaseSelect && form.office.value != PleaseSelect
    ensures GetNameFields(cfg, form.office) == FirstNameOnly
    ensures CandidateDecision(cfg, cands, form, csrfError, now) == Failure(LastnameRequired)
  {
  }

  datatype RegistrationOutcome = Rejected(reason: Rejection) | StoreFailed | Registered(id: nat)

  /** `candidate_view` on a POST: refuse, or add exactly one Candidate row and commit. */
  method RegisterCandidate(tables: CandidateTables, cfg: Config, form: CandidateForm, csrfError: bool,
                           now: int, storageOk: bool)
    returns (outcome: RegistrationOutcome)
    requires tables.Valid()
    modifies tables
    ensures tables.Valid()
    ensures var d := CandidateDecision(cfg, old(tables.candidates), form, csrfError, now);
      && (d.Failure? ==> outcome == Rejected(d.error) && unchanged(tables))
      && (d.Success? && !storageOk ==> outcome == StoreFailed && unchanged(tables))
      && (d.Success? && storageOk ==>
            && outcome == Registered(old(tables.nextCandidateId))
            && tables.candidates == old(tables.candidates) +
                 [Candidate(old(tables.nextCandidateId), d.value.firstname, d.value.lastname,
                            d.value.classgrp, d.value.office, d.value.party)]
            && tables.writeins == old(tables.writeins) && tables.votes == old(tables.votes))
  {
    var d := CandidateDecision(cfg, tables.candidates, form, csrfError, now);
    if d.Failure? {
      return Rejected(d.error);
    }
    if !storageOk {
      return StoreFailed;
    }
    var f := d.value;
    var id := tables.AddCandidate(f.firstname, f.lastname, f.classgrp, f.office, f.party);
    outcome := Registered(id);
  }

  // ---------------------------------------------------------------- writein_candidate

  /** The fields of a write-in POST that passed form validation. */
  datatype WriteinForm = WriteinForm(name: string, classgrp: string, office: string)

  /** The POST branch of `writein_candidate` up to the insert: each refusal holds exactly when
      every earlier check passed and its own failed, in the order of the view's checks. */
  function WriteinDecision(cfg: Config, ws: seq<WriteinCandidate>, form: WriteinForm, formValid: bool, now: int)
    : (r: Result<WriteinForm, Rejection>)
    ensures r == Failure(NoElectionDates) <==> DatesGate(cfg, now) == Some(NoElectionDates)
    ensures r == Failure(VotingStarted) <==> DatesGate(cfg, now) == Some(VotingStarted)
    ensures r == Failure(FormInvalid) <==> DatesGate(cfg, now).None? && !formValid
    ensures r == Failure(ClassNotSelected) <==>
      DatesGate(cfg, now).None? && formValid && form.classgrp == PleaseSelect
    ensures r == Failure(OfficeNotSelected) <==>
      DatesGate(cfg, now).None? && formValid && form.classgrp != PleaseSelect && form.office == PleaseSelect
    ensures r == Failure(WriteinExists) <==>
      DatesGate(cfg, now).None? && formValid && form.classgrp != PleaseSelect && form.office != PleaseSelect &&
      CheckExistingWritein(ws, form.name, form.classgrp, form.office)
    ensures r.Success? <==>
      DatesGate(cfg, now).None? && formValid && form.classgrp != PleaseSelect && form.office != PleaseSelect &&
      !CheckExistingWritein(ws, form.name, form.classgrp, form.office)
    ensures r.Success? ==> r.value == form
  {
    if DatesGate(cfg, now).Some? then Failure(DatesGate(cfg, now).value)
    else if !formValid then Failure(FormInvalid)
    else if form.classgrp == PleaseSelect then Failure(ClassNotSelected)
    else if form.office == PleaseSelect then Failure(OfficeNotSelected)
    else if CheckExistingWritein(ws, form.name, form.classgrp, form.office) then Failure(WriteinExists)
    else Success(form)
  }

  /** A write-in is registered once per class and office. */
  lemma WriteinRegisteredOnce(cfg: Config, ws: seq<WriteinCandidate>, form: WriteinForm, formValid: bool,
                              now: int, id: nat)
    requires WriteinDecision(cfg, ws, form, formValid, now).Success?
    ensures WriteinDecision(cfg, ws + [WriteinCandidate(id, form.name, form.classgrp, form.office)],
                            form, formValid, now) == Failure(WriteinExists)
  {
    var w := WriteinCandidate(id, form.name, form.classgrp, form.office);
    assert w in ws + [w];
  }

  /** `writein_candidate` on a POST: refuse, or ensure the placeholder candidate for the class
      and office, add exactly one WriteinCandidate row and commit both together. */
  method RegisterWritein(tables: CandidateTables, cfg: Config, form: WriteinForm, formValid: bool,
                         now: int, storageOk: bool)
    returns (outcome: RegistrationOutcome)
    requires tables.Valid()
    modifies tables
    ensures tables.Valid()
    ensures var d := WriteinDecision(cfg, old(tables.writeins), form, formValid, now);
      && (d.Failure? ==> outcome == Rejected(d.error) && unchanged(tables))
      && (d.Success? && !storageOk ==> outcome == StoreFailed && unchanged(tables))
      && (d.Success? && storageOk ==>
            && outcome == Registered(old(tables.nextWriteinId))
            && tables.candidates ==
                 WithWriteinPlaceholder(old(tables.candidates), old(tables.nextCandidateId), form.classgrp, form.office)
            && tables.writeins == old(tables.writeins) +
                 [WriteinCandidate(old(tables.nextWriteinId), form.name, form.classgrp, form.office)]
            && tables.votes == old(tables.votes))
  {
    var d := WriteinDecision(cfg, tables.writeins, form, formValid, now);
    if d.Failure? {
      return Rejected(d.error);
    }
    if !storageOk {
      return StoreFailed;
    }
    tables.CheckAndInsertWriteinCandidate(form.classgrp, form.office);
    var id := tables.AddWritein(form.name, form.classgrp, form.office);
    outcome := Registered(id);
  }

  // ---------------------------------------------------------------- get_name_fields

  /** The answer of `get_name_fields`: which name inputs the form shows, or a 400. */
  datatype NameFields = FirstAndLastName | FirstNameOnly | BadRequest

  function GetNameFields(cfg: Config, officeId: Option<Key>): (r: NameFields)
    ensures r == FirstAndLastName <==>
      GetBallotTypeName(cfg, officeId) == Some(Normal) || GetBallotTypeName(cfg, officeId) == Some(RankChoice)
    ensures r == FirstNameOnly <==>
      GetBallotTypeName(cfg, officeId) == Some(SingleName) || GetBallotTypeName(cfg, officeId) == Some(Measure)
    ensures officeId.None? ==> r == BadRequest
  {
    var name := GetBallotTypeName(cfg, officeId);
    if name == Some(Normal) || name == Some(RankChoice) then FirstAndLastName
    else if name == Some(SingleName) || name == Some(Measure) then FirstNameOnly
    else BadRequest
  }

  /** The two screens agree on offices that ask for a last name: there an empty lastname
      is refused, and on "Single Name" offices it is let through. */
  lemma NameFieldsMatchLastnameRule(cfg: Config, office: Key)
    ensures GetNameFields(cfg, Some(office)) == FirstAndLastName ==> !LastnameAccepted(cfg, "", office)
    ensures GetBallotTypeName(cfg, Some(office)) == Some(SingleName) ==>
      GetNameFields(cfg, Some(office)) == FirstNameOnly && LastnameAccepted(cfg, "", office)
  {
  }

  // ---------------------------------------------------------------- deletecandidate

  datatype DeletionOutcome = CandidateNotFound | CandidateDeleteFailed | CandidateDeleted

  /** `deletecandidate`: a 404 for an unknown key, otherwise delete and commit; there is no
      dates gate. The votes for the candidate stay with a NULL candidate. */
  method DeleteCandidateView(tables: CandidateTables, xid: nat, storageOk: bool) returns (outcome: DeletionOutcome)
    requires tables.Valid()
    modifies tables
    ensures tables.Valid()
    ensures (forall c :: c in old(tables.candidates) ==> c.id != xid) ==>
      outcome == CandidateNotFound && unchanged(tables)
    ensures (exists c :: c in old(tables.candidates) && c.id == xid) && !storageOk ==>
      outcome == CandidateDeleteFailed && unchanged(tables)
    ensures (exists c :: c in old(tables.candidates) && c.id == xid) && storageOk ==>
      && outcome == CandidateDeleted
      && tables.candidates == Filter(old(tables.candidates), CandidateOtherThan(xid))
      && tables.votes == DetachVotes(old(tables.votes), xid)
      && tables.writeins == old(tables.writeins)
  {
    if forall c :: c in tables.candidates ==> c.id != xid {
      return CandidateNotFound;
    }
    if !storageOk {
      return CandidateDeleteFailed;
    }
    var _ := tables.DeleteCandidate(xid);
    outcome := CandidateDeleted;
  }

  /** After the delete no candidate has that key and no vote references it. */
  lemma DeletedCandidateGone(cands: seq<Candidate>, votes: seq<Vote>, xid: nat)
    ensures forall c :: c in Filter(cands, CandidateOtherThan(xid)) ==> c.id != xid
    ensures forall i :: 0 <= i < |DetachVotes(votes, xid)| ==> DetachVotes(votes, xid)[i].candidate != Some(xid)
    ensures |DetachVotes(votes, xid)| == |votes|
  {
    forall c | c in Filter(cands, CandidateOtherThan(xid)) ensures c.id != xid {
      assert CandidateOtherThan(xid)(c);
    }
  }
}
