/** The tables of the election database (election1/models.py): one datatype per row kind,
    the lookups the model classes offer as class methods, and three classes for the tables
    the core writes in place: the token ledger (Tokenlist), the token selectors
    (Tokenlistselectors) and the candidate-side tables (Candidate, WriteinCandidate, Votes). */
module Models {
  import opened Common

  /** Primary key of a Classgrp, Office, Party or BallotType row, as the text that the admin
      forms submit and the views pass straight into queries and new rows. */
  type Key = string

  /** The placeholder text an unselected select field submits. */
  const PleaseSelect := "Please select"

  datatype BallotType = BallotType(id: Key, name: string)

  datatype Classgrp = Classgrp(id: Key, name: string, sortkey: int)

  datatype Office = Office(id: Key, title: string, voteFor: int, sortkey: int, ballotType: Key)

  datatype Candidate = Candidate(
    id: nat, firstname: string, lastname: string, classgrp: Key, office: Key, party: Option<Key>)

  datatype WriteinCandidate = WriteinCandidate(id: nat, name: string, classgrp: Key, office: Key)

  /** A cast ballot line; `candidate` is the nullable foreign key `id_candidate`. */
  datatype Vote = Vote(id: nat, token: string, writeinName: Option<string>, candidate: Option<nat>)

  /** Start and end of the election as integer timestamps. */
  datatype ElectionDates = ElectionDates(id: nat, start: int, end: int)

  /** A ledger row; `submitted` is `vote_submitted_date_time`, a timestamp or NULL. */
  datatype TokenRow = TokenRow(id: nat, grpList: string, token: string, submitted: Option<int>)

  datatype TokenSelector = TokenSelector(
    id: nat, primary: string, secondary: Option<string>, tertiary: Option<string>,
    quaternary: Option<string>)

  /** The configuration tables the core only reads. */
  datatype Config = Config(
    ballotTypes: seq<BallotType>, classgrps: seq<Classgrp>, offices: seq<Office>,
    dates: seq<ElectionDates>)

  /** The configuration keys are primary keys: no two offices, classes or ballot types share
      one. The lookups below take the first match, which under this condition is the only one. */
  ghost predicate UniqueConfigKeys(cfg: Config) {
    && (forall i, j :: 0 <= i < j < |cfg.offices| ==> cfg.offices[i].id != cfg.offices[j].id)
    && (forall i, j :: 0 <= i < j < |cfg.classgrps| ==> cfg.classgrps[i].id != cfg.classgrps[j].id)
    && (forall i, j :: 0 <= i < j < |cfg.ballotTypes| ==> cfg.ballotTypes[i].id != cfg.ballotTypes[j].id)
  }

  // ---------------------------------------------------------------- Office, Dates

  /** `Office.get_ballot_type_name`: the name of the ballot type of the office with the given
      key, or None when there is no key, no such office, or the office's ballot type is missing. */
  function GetBallotTypeName(cfg: Config, officeId: Option<Key>): (r: Option<string>)
    ensures r.Some? ==>
      exists o, b :: o in cfg.offices && b in cfg.ballotTypes && Some(o.id) == officeId &&
        b.id == o.ballotType && b.name == r.value
    ensures officeId.None? ==> r.None?
    ensures officeId.Some? && (forall o :: o in cfg.offices ==> o.id != officeId.value) ==> r.None?
    ensures r.None? && officeId.Some? ==>
      (forall o :: o in cfg.offices ==> o.id != officeId.value) ||
      (exists i :: 0 <= i < |cfg.offices| && cfg.offices[i].id == officeId.value &&
         forall b :: b in cfg.ballotTypes ==> b.id != cfg.offices[i].ballotType)
  {
    if officeId.None? then None
    else
      match FindFirst(cfg.offices, (o: Office) => o.id == officeId.value)
      case None => None
      case Some(i) =>
        match FindFirst(cfg.ballotTypes, (b: BallotType) => b.id == cfg.offices[i].ballotType)
        case None => None
        case Some(j) => Some(cfg.ballotTypes[j].name)
  }

  /** `Dates.check_dates`: an election-dates record exists. */
  predicate CheckDates(dates: seq<ElectionDates>) {
    |dates| > 0
  }

  /** `Dates.after_start_date`: the first dates record's start lies strictly before `now`;
      false when there is no record. */
  predicate AfterStartDate(dates: seq<ElectionDates>, now: int) {
    |dates| > 0 && now > dates[0].start
  }

  // ---------------------------------------------------------------- Candidate, WriteinCandidate

  /** `Candidate.check_existing_candidate`: a candidate with this name exists in the class,
      whatever its office. */
  predicate CheckExistingCandidate(cands: seq<Candidate>, firstname: string, lastname: string, classgrp: Key) {
    exists c :: c in cands && c.firstname == firstname && c.lastname == lastname && c.classgrp == classgrp
  }

  /** `WriteinCandidate.check_existing_writein_candidate`. */
  predicate CheckExistingWritein(ws: seq<WriteinCandidate>, name: string, classgrp: Key, office: Key) {
    exists w :: w in ws && w.name == name && w.classgrp == classgrp && w.office == office
  }

  const WriteinFirstname := "Writein"
  const WriteinLastname := "Candidate"

  /** A "Writein"/"Candidate" placeholder row exists for the class and office. */
  predicate HasWriteinPlaceholder(cands: seq<Candidate>, classgrp: Key, office: Key) {
    exists c :: c in cands && c.firstname == WriteinFirstname && c.lastname == WriteinLastname &&
      c.classgrp == classgrp && c.office == office
  }

  /** The candidate table after `Candidate.check_and_insert_writein_candidate`, where `nextId` is
      the key the database would give a new row. */
  function WithWriteinPlaceholder(cands: seq<Candidate>, nextId: nat, classgrp: Key, office: Key): seq<Candidate> {
    if HasWriteinPlaceholder(cands, classgrp, office) then cands
    else cands + [Candidate(nextId, WriteinFirstname, WriteinLastname, classgrp, office, None)]
  }

  /** Afterwards the placeholder exists; nothing is added when it already did, and one row
      otherwise. */
  lemma WriteinPlaceholderEnsured(cands: seq<Candidate>, nextId: nat, classgrp: Key, office: Key)
    ensures HasWriteinPlaceholder(WithWriteinPlaceholder(cands, nextId, classgrp, office), classgrp, office)
    ensures HasWriteinPlaceholder(cands, classgrp, office) ==>
      WithWriteinPlaceholder(cands, nextId, classgrp, office) == cands
    ensures !HasWriteinPlaceholder(cands, classgrp, office) ==>
      |WithWriteinPlaceholder(cands, nextId, classgrp, office)| == |cands| + 1
  {
    if !HasWriteinPlaceholder(cands, classgrp, office) {
      var r := WithWriteinPlaceholder(cands, nextId, classgrp, office);
      assert r[|cands|] in r;
    }
  }

  /** A second call adds nothing, whatever key it would have used. */
  lemma WriteinPlaceholderIdempotent(cands: seq<Candidate>, n1: nat, n2: nat, classgrp: Key, office: Key)
    ensures var once := WithWriteinPlaceholder(cands, n1, classgrp, office);
      WithWriteinPlaceholder(once, n2, classgrp, office) == once
  {
    WriteinPlaceholderEnsured(cands, n1, classgrp, office);
  }

  /** The votes after the candidate `xid` is deleted: the ORM sets their `id_candidate` to NULL. */
  function DetachVotes(votes: seq<Vote>, xid: nat): (r: seq<Vote>)
    ensures |r| == |votes|
    ensures forall i :: 0 <= i < |r| ==> r[i].candidate != Some(xid)
    ensures forall i :: 0 <= i < |r| ==> votes[i].candidate != Some(xid) ==> r[i] == votes[i]
    ensures forall i :: 0 <= i < |r| && votes[i].candidate == Some(xid) ==> r[i] == votes[i].(candidate := None)
    ensures forall i :: 0 <= i < |r| ==>
      r[i].id == votes[i].id && r[i].token == votes[i].token && r[i].writeinName == votes[i].writeinName
  {
    seq(|votes|, i requires 0 <= i < |votes| =>
      if votes[i].candidate == Some(xid) then votes[i].(candidate := None) else votes[i])
  }

  // ---------------------------------------------------------------- Tokenlist

  /** The `unique=True` constraint on `Tokenlist.token`. */
  ghost predicate UniqueTokens(rows: seq<TokenRow>) {
    forall i, j :: 0 <= i < j < |rows| ==> rows[i].token != rows[j].token
  }

  predicate HasToken(rows: seq<TokenRow>, token: string) {
    exists i :: 0 <= i < |rows| && rows[i].token == token
  }

  /** Row `i` is the one `filter_by(token=token).first()` returns. */
  ghost predicate IsFirstWithToken(rows: seq<TokenRow>, token: string, i: int) {
    0 <= i < |rows| && rows[i].token == token && forall j :: 0 <= j < i ==> rows[j].token != token
  }

  /** `Tokenlist.to_dict`; the timestamp stays a number (its ISO text is not modelled). */
  datatype TokenRecord = TokenRecord(id: nat, grpList: string, token: string, submitted: Option<int>)

  function ToDict(row: TokenRow): (d: TokenRecord)
    ensures d.id == row.id && d.grpList == row.grpList && d.token == row.token
    ensures d.submitted.None? <==> row.submitted.None?
  {
    TokenRecord(row.id, row.grpList, row.token, row.submitted)
  }

  const InvalidTokenMessage := "Invalid token"
  const UsedTokenMessage := "Token has already been used"

  /** The dictionary `get_tokenlist_record` returns: `{'error': message}` or the record. */
  datatype TokenLookup = LookupError(error: string) | Record(record: TokenRecord)

  /** `Tokenlist.get_tokenlist_record`: an absent token is invalid, a submitted one is used,
      and otherwise the record comes back with no submission time. */
  function GetTokenlistRecord(rows: seq<TokenRow>, token: string): (r: TokenLookup)
    ensures r == LookupError(InvalidTokenMessage) <==> !HasToken(rows, token)
    ensures forall i :: IsFirstWithToken(rows, token, i) ==>
      (r == LookupError(UsedTokenMessage) <==> rows[i].submitted.Some?)
    ensures forall i :: IsFirstWithToken(rows, token, i) && rows[i].submitted.None? ==> r == Record(ToDict(rows[i]))
    ensures r.Record? ==> exists i :: IsFirstWithToken(rows, token, i) && r.record == ToDict(rows[i])
    ensures r.Record? ==> r.record.token == token && r.record.submitted.None?
  {
    match FindFirst(rows, (row: TokenRow) => row.token == token)
    case None => LookupError(InvalidTokenMessage)
    case Some(i) =>
      assert IsFirstWithToken(rows, token, i);
      if rows[i].submitted.Some? then LookupError(UsedTokenMessage) else Record(ToDict(rows[i]))
  }

  /** With unique tokens the row holding the token decides the lookup. */
  lemma LookupByUniqueToken(rows: seq<TokenRow>, i: nat)
    requires UniqueTokens(rows)
    requires i < |rows|
    ensures var r := GetTokenlistRecord(rows, rows[i].token);
      if rows[i].submitted.Some? then r == LookupError(UsedTokenMessage)
      else r == Record(ToDict(rows[i]))
  {
    assert IsFirstWithToken(rows, rows[i].token, i);
    var r := GetTokenlistRecord(rows, rows[i].token);
    if r.Record? {
      var k :| IsFirstWithToken(rows, rows[i].token, k) && r.record == ToDict(rows[k]);
      assert k == i;
    }
  }

  /** A token just appended unsubmitted is found with its record. */
  lemma LookupAppended(rows: seq<TokenRow>, row: TokenRow)
    requires !HasToken(rows, row.token)
    requires row.submitted.None?
    ensures GetTokenlistRecord(rows + [row], row.token) == Record(ToDict(row))
  {
    var s := rows + [row];
    assert s[|rows|] == row;
    assert IsFirstWithToken(s, row.token, |rows|);
    var r := GetTokenlistRecord(s, row.token);
    if r.Record? {
      var k :| IsFirstWithToken(s, row.token, k) && r.record == ToDict(s[k]);
      assert k == |rows|;
    }
  }

  /** Keys handed out by an autoincrement counter: increasing and below the counter. */
  ghost predicate KeysBelow<T>(s: seq<T>, key: T -> nat, next: nat) {
    (forall i :: 0 <= i < |s| ==> key(s[i]) < next) &&
    (forall i, j :: 0 <= i < j < |s| ==> key(s[i]) < key(s[j]))
  }

  lemma KeysBelowAppend<T>(s: seq<T>, key: T -> nat, next: nat, x: T)
    requires KeysBelow(s, key, next) && key(x) == next
    ensures KeysBelow(s + [x], key, next + 1)
  {
    assert forall i :: 0 <= i < |s| ==> (s + [x])[i] == s[i];
  }

  lemma {:induction false} KeysBelowFilter<T(!new)>(s: seq<T>, key: T -> nat, next: nat, p: T -> bool)
    requires KeysBelow(s, key, next)
    ensures KeysBelow(Filter(s, p), key, next)
  {
    if s != [] {
      var tail := s[1..];
      assert forall i :: 0 <= i < |tail| ==> tail[i] == s[i + 1];
      KeysBelowFilter(tail, key, next, p);
      var ft := Filter(tail, p);
      assert forall k :: 0 <= k < |ft| ==> key(s[0]) < key(ft[k]) by {
        forall k | 0 <= k < |ft| ensures key(s[0]) < key(ft[k]) {
          assert ft[k] in tail;
          var j :| 0 <= j < |tail| && tail[j] == ft[k];
          assert key(s[0]) < key(s[j + 1]);
        }
      }
      if p(s[0]) {
        var r := [s[0]] + ft;
        assert Filter(s, p) == r;
        assert forall k :: 1 <= k < |r| ==> r[k] == ft[k - 1];
      } else {
        assert Filter(s, p) == ft;
      }
    }
  }

  function TokenRowId(r: TokenRow): nat { r.id }

  /** The Tokenlist table. */
  class TokenLedger {
    var rows: seq<TokenRow>
    var nextId: nat

    ghost predicate Valid()
      reads this
    {
      UniqueTokens(rows) && KeysBelow(rows, TokenRowId, nextId)
    }

    constructor ()
      ensures Valid() && rows == [] && nextId == 0
    {
      rows := [];
      nextId := 0;
    }

    /** `Tokenlist.query.delete()` followed by a commit. */
    method DeleteAll()
      requires Valid()
      modifies this
      ensures Valid() && rows == [] && nextId == old(nextId)
    {
      rows := [];
    }

    /** Adds an unsubmitted token and commits; the unique constraint refuses a token string
        that is already present, and then nothing changes. */
    method Add(grpList: string, token: string) returns (ok: bool)
      requires Valid()
      modifies this
      ensures Valid()
      ensures ok <==> !HasToken(old(rows), token)
      ensures ok ==> rows == old(rows) + [TokenRow(old(nextId), grpList, token, None)] && nextId == old(nextId) + 1
      ensures !ok ==> unchanged(this)
    {
      ok := !HasToken(rows, token);
      if ok {
        KeysBelowAppend(rows, TokenRowId, nextId, TokenRow(nextId, grpList, token, None));
        rows := rows + [TokenRow(nextId, grpList, token, None)];
        nextId := nextId + 1;
      }
    }
  }

  // ---------------------------------------------------------------- Tokenlistselectors

  function SelectorId(s: TokenSelector): nat { s.id }

  /** Keeps every selector but the one with key `xid`. */
  function SelectorOtherThan(xid: nat): TokenSelector -> bool {
    (s: TokenSelector) => s.id != xid
  }

  /** `Tokenlistselectors.get_tokenlistselector_by_id_as_dict` (`query.get`). */
  function GetSelectorById(rows: seq<TokenSelector>, xid: nat): (r: Option<TokenSelector>)
    ensures r.Some? ==> r.value in rows && r.value.id == xid
    ensures r.None? <==> forall s :: s in rows ==> s.id != xid
  {
    match FindFirst(rows, (s: TokenSelector) => s.id == xid)
    case None => None
    case Some(i) => Some(rows[i])
  }

  /** The Tokenlistselectors table. */
  class SelectorTable {
    var rows: seq<TokenSelector>
    var nextId: nat

    ghost predicate Valid()
      reads this
    {
      KeysBelow(rows, SelectorId, nextId)
    }

    constructor ()
      ensures Valid() && rows == [] && nextId == 0
    {
      rows := [];
      nextId := 0;
    }

    /** Adds a selector and commits; returns its key. */
    method Add(primary: string, secondary: Option<string>, tertiary: Option<string>, quaternary: Option<string>)
      returns (id: nat)
      requires Valid()
      modifies this
      ensures Valid()
      ensures id == old(nextId) && nextId == old(nextId) + 1
      ensures rows == old(rows) + [TokenSelector(id, primary, secondary, tertiary, quaternary)]
    {
      id := nextId;
      KeysBelowAppend(rows, SelectorId, nextId, TokenSelector(id, primary, secondary, tertiary, quaternary));
      rows := rows + [TokenSelector(id, primary, secondary, tertiary, quaternary)];
      nextId := nextId + 1;
    }

    /** Deletes the selector with key `xid`; `found` is false (a 404) when there is none. */
    method Delete(xid: nat) returns (found: bool)
      requires Valid()
      modifies this
      ensures Valid() && nextId == old(nextId)
      ensures found <==> GetSelectorById(old(rows), xid).Some?
      ensures rows == Filter(old(rows), SelectorOtherThan(xid))
    {
      found := GetSelectorById(rows, xid).Some?;
      KeysBelowFilter(rows, SelectorId, nextId, SelectorOtherThan(xid));
      rows := Filter(rows, SelectorOtherThan(xid));
    }
  }

  // ---------------------------------------------------------------- Candidate-side tables

  function CandidateId(c: Candidate): nat { c.id }

  function WriteinId(w: WriteinCandidate): nat { w.id }

  /** Keeps every candidate but the one with key `xid`. */
  function CandidateOtherThan(xid: nat): Candidate -> bool {
    (c: Candidate) => c.id != xid
  }

  /** The Candidate, WriteinCandidate and Votes tables. */
  class CandidateTables {
    var candidates: seq<Candidate>
    var writeins: seq<WriteinCandidate>
    var votes: seq<Vote>
    var nextCandidateId: nat
    var nextWriteinId: nat

    ghost predicate Valid()
      reads this
    {
      KeysBelow(candidates, CandidateId, nextCandidateId) &&
      KeysBelow(writeins, WriteinId, nextWriteinId)
    }

    constructor (votes: seq<Vote>)
      ensures Valid() && candidates == [] && writeins == [] && this.votes == votes
    {
      candidates, writeins, this.votes := [], [], votes;
      nextCandidateId, nextWriteinId := 0, 0;
    }

    method AddCandidate(firstname: string, lastname: string, classgrp: Key, office: Key, party: Option<Key>)
      returns (id: nat)
      requires Valid()
      modifies this
      ensures Valid()
      ensures id == old(nextCandidateId) && nextCandidateId == id + 1
      ensures candidates == old(candidates) + [Candidate(id, firstname, lastname, classgrp, office, party)]
      ensures writeins == old(writeins) && votes == old(votes) && nextWriteinId == old(nextWriteinId)
    {
      id := nextCandidateId;
      KeysBelowAppend(candidates, CandidateId, nextCandidateId, Candidate(id, firstname, lastname, classgrp, office, party));
      candidates := candidates + [Candidate(id, firstname, lastname, classgrp, office, party)];
      nextCandidateId := nextCandidateId + 1;
    }

    method AddWritein(name: string, classgrp: Key, office: Key) returns (id: nat)
      requires Valid()
      modifies this
      ensures Valid()
      ensures id == old(nextWriteinId) && nextWriteinId == id + 1
      ensures writeins == old(writeins) + [WriteinCandidate(id, name, classgrp, office)]
      ensures candidates == old(candidates) && votes == old(votes) && nextCandidateId == old(nextCandidateId)
    {
      id := nextWriteinId;
      KeysBelowAppend(writeins, WriteinId, nextWriteinId, WriteinCandidate(id, name, classgrp, office));
      writeins := writeins + [WriteinCandidate(id, name, classgrp, office)];
      nextWriteinId := nextWriteinId + 1;
    }

    /** `Candidate.check_and_insert_writein_candidate`: adds the "Writein"/"Candidate"
        placeholder for the class and office unless it is already there. */
    method CheckAndInsertWriteinCandidate(classgrp: Key, office: Key)
      requires Valid()
      modifies this
      ensures Valid()
      ensures candidates == WithWriteinPlaceholder(old(candidates), old(nextCandidateId), classgrp, office)
      ensures nextCandidateId == old(nextCandidateId) + |candidates| - |old(candidates)|
      ensures writeins == old(writeins) && votes == old(votes) && nextWriteinId == old(nextWriteinId)
    {
      if !HasWriteinPlaceholder(candidates, classgrp, office) {
        var _ := AddCandidate(WriteinFirstname, WriteinLastname, classgrp, office, None);
      }
    }

    /** Deletes the candidate `xid`; `found` is false (a 404) when there is none. The votes
        that referenced it keep their rows with a NULL candidate. */
    method DeleteCandidate(xid: nat) returns (found: bool)
      requires Valid()
      modifies this
      ensures Valid()
      ensures found <==> exists c :: c in old(candidates) && c.id == xid
      ensures found ==> candidates == Filter(old(candidates), CandidateOtherThan(xid))
      ensures found ==> votes == DetachVotes(old(votes), xid)
      ensures !found ==> candidates == old(candidates) && votes == old(votes)
      ensures writeins == old(writeins)
      ensures nextCandidateId == old(nextCandidateId) && nextWriteinId == old(nextWriteinId)
    {
      found := exists c :: c in candidates && c.id == xid;
      if found {
        KeysBelowFilter(candidates, CandidateId, nextCandidateId, CandidateOtherThan(xid));
        candidates := Filter(candidates, CandidateOtherThan(xid));
        votes := DetachVotes(votes, xid);
      }
    }
  }
}
