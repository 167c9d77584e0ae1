/** The read-only reports of election1/models.py: the vote tally of
    `Candidate.get_summary_results` and the offices of a class of
    `Office.query_offices_for_classgroup_with_details_as_list`, written as filters, counts and
    sorts over the table rows. */
module Queries {
  import opened Common
  import opened Models

  /** The office with the given key, as an inner join on it finds it. */
  function FindOffice(offices: seq<Office>, id: Key): (r: Option<Office>)
    ensures r.Some? ==> r.value in offices && r.value.id == id
    ensures r.None? <==> forall o :: o in offices ==> o.id != id
  {
    match FindFirst(offices, (o: Office) => o.id == id)
    case None => None
    case Some(i) => Some(offices[i])
  }

  function FindClassgrp(classgrps: seq<Classgrp>, id: Key): (r: Option<Classgrp>)
    ensures r.Some? ==> r.value in classgrps && r.value.id == id
    ensures r.None? <==> forall g :: g in classgrps ==> g.id != id
  {
    match FindFirst(classgrps, (g: Classgrp) => g.id == id)
    case None => None
    case Some(i) => Some(classgrps[i])
  }

  // ---------------------------------------------------------------- get_summary_results

  /** `count(Votes.id_candidate)` for one candidate: the votes that reference it. */
  function VoteCount(votes: seq<Vote>, cid: nat): (n: nat)
    ensures n <= |votes|
    ensures n == 0 <==> forall i :: 0 <= i < |votes| ==> votes[i].candidate != Some(cid)
  {
    if votes == [] then 0
    else
      assert forall i :: 1 <= i < |votes| ==> votes[i] == votes[1..][i - 1];
      (if votes[0].candidate == Some(cid) then 1 else 0) + VoteCount(votes[1..], cid)
  }

  /** One row of the summary: group name, office title, vote-for, candidate names, candidate
      key and vote total. */
  datatype SummaryRow = SummaryRow(
    groupName: string, officeTitle: string, voteFor: int, firstname: string, lastname: string,
    candidateId: nat, total: nat)

  /** A summary row with the class and office sort keys its ORDER BY uses. */
  datatype Tally = Tally(classKey: int, officeKey: int, row: SummaryRow)

  /** The grouped row of candidate `c`: present when its office and class join and at least
      one vote references it. */
  function TallyOf(cfg: Config, votes: seq<Vote>, c: Candidate): (r: Option<Tally>)
    ensures r.Some? <==>
      FindOffice(cfg.offices, c.office).Some? && FindClassgrp(cfg.classgrps, c.classgrp).Some? &&
      exists k :: 0 <= k < |votes| && votes[k].candidate == Some(c.id)
    ensures r.Some? ==> r.value.row.total == VoteCount(votes, c.id) && r.value.row.candidateId == c.id
    ensures r.Some? ==>
      && r.value.classKey == FindClassgrp(cfg.classgrps, c.classgrp).value.sortkey
      && r.value.officeKey == FindOffice(cfg.offices, c.office).value.sortkey
  {
    match (FindOffice(cfg.offices, c.office), FindClassgrp(cfg.classgrps, c.classgrp))
    case (Some(o), Some(g)) =>
      var n := VoteCount(votes, c.id);
      if n == 0 then None
      else Some(Tally(g.sortkey, o.sortkey,
        SummaryRow(g.name, o.title, o.voteFor, c.firstname, c.lastname, c.id, n)))
    case _ => None
  }

  /** The grouped rows, in candidate-table order. */
  function CandidateTallies(cfg: Config, votes: seq<Vote>, cands: seq<Candidate>): (r: seq<Tally>)
    ensures forall t :: t in r ==> exists c :: c in cands && TallyOf(cfg, votes, c) == Some(t)
    ensures forall c :: c in cands && TallyOf(cfg, votes, c).Some? ==> TallyOf(cfg, votes, c).value in r
  {
    if cands == [] then []
    else
      assert forall c :: c in cands <==> c == cands[0] || c in cands[1..];
      var head := match TallyOf(cfg, votes, cands[0]) case Some(t) => [t] case None => [];
      head + CandidateTallies(cfg, votes, cands[1..])
  }

  /** ORDER BY class sortkey, office sortkey, vote count descending. */
  predicate TallyBefore(a: Tally, b: Tally) {
    a.classKey < b.classKey ||
    (a.classKey == b.classKey &&
      (a.officeKey < b.officeKey || (a.officeKey == b.officeKey && a.row.total >= b.row.total)))
  }

  lemma TallyOrderIsTotal()
    ensures TotalPreorder(TallyBefore)
  {
  }

  /** The grouped rows sorted as the query orders them. */
  function SummaryTallies(cfg: Config, votes: seq<Vote>, cands: seq<Candidate>): (r: seq<Tally>)
    ensures SortedBy(r, TallyBefore)
    ensures multiset(r) == multiset(CandidateTallies(cfg, votes, cands))
  {
    TallyOrderIsTotal();
    SortBy(CandidateTallies(cfg, votes, cands), TallyBefore)
  }

  /** `Candidate.get_summary_results`: the summary rows in the query's order. */
  function GetSummaryResults(cfg: Config, votes: seq<Vote>, cands: seq<Candidate>): (r: seq<SummaryRow>)
    ensures |r| == |SummaryTallies(cfg, votes, cands)|
    ensures forall i :: 0 <= i < |r| ==> r[i] == SummaryTallies(cfg, votes, cands)[i].row
  {
    var t := SummaryTallies(cfg, votes, cands);
    seq(|t|, i requires 0 <= i < |t| => t[i].row)
  }

  /** Every summary row belongs to a candidate whose office and class exist; it carries their
      names, the candidate's names and key, and the number of votes that reference it, which
      is at least one. */
  lemma SummaryRowsCountVotes(cfg: Config, votes: seq<Vote>, cands: seq<Candidate>, i: nat)
    requires i < |GetSummaryResults(cfg, votes, cands)|
    ensures var row := GetSummaryResults(cfg, votes, cands)[i];
      var t := SummaryTallies(cfg, votes, cands)[i];
      && row.total == VoteCount(votes, row.candidateId)
      && row.total >= 1
      && exists c, o, g :: c in cands && o in cfg.offices && g in cfg.classgrps &&
           c.id == row.candidateId && c.office == o.id && c.classgrp == g.id &&
           row == SummaryRow(g.name, o.title, o.voteFor, c.firstname, c.lastname, c.id, row.total) &&
           t.classKey == g.sortkey && t.officeKey == o.sortkey
  {
    var t := SummaryTallies(cfg, votes, cands)[i];
    assert t in multiset(SummaryTallies(cfg, votes, cands));
    assert t in CandidateTallies(cfg, votes, cands);
    var c :| c in cands && TallyOf(cfg, votes, c) == Some(t);
    var o := FindOffice(cfg.offices, c.office).value;
    var g := FindClassgrp(cfg.classgrps, c.classgrp).value;
    assert o in cfg.offices && g in cfg.classgrps;
  }

  /** Every candidate whose office and class exist and that has a vote has a summary row. */
  lemma SummaryCoversVotedCandidates(cfg: Config, votes: seq<Vote>, cands: seq<Candidate>, c: Candidate)
    requires c in cands
    requires FindOffice(cfg.offices, c.office).Some? && FindClassgrp(cfg.classgrps, c.classgrp).Some?
    requires exists k :: 0 <= k < |votes| && votes[k].candidate == Some(c.id)
    ensures exists i :: 0 <= i < |GetSummaryResults(cfg, votes, cands)| &&
             GetSummaryResults(cfg, votes, cands)[i].candidateId == c.id &&
             GetSummaryResults(cfg, votes, cands)[i].total == VoteCount(votes, c.id)
  {
    var t := TallyOf(cfg, votes, c).value;
    assert t in multiset(CandidateTallies(cfg, votes, cands));
    var sorted := SummaryTallies(cfg, votes, cands);
    assert t in multiset(sorted);
    var i :| 0 <= i < |sorted| && sorted[i] == t;
    assert GetSummaryResults(cfg, votes, cands)[i] == t.row;
  }

  /** Candidate keys are the primary key of the Candidate table. */
  ghost predicate UniqueCandidateIds(cands: seq<Candidate>) {
    forall i, j :: 0 <= i < j < |cands| ==> cands[i].id != cands[j].id
  }

  /** The candidate table's invariant gives the uniqueness the summary lemmas assume. */
  lemma ValidUniqueIds(t: CandidateTables)
    requires t.Valid()
    ensures UniqueCandidateIds(t.candidates)
  {
    forall i, j | 0 <= i < j < |t.candidates| ensures t.candidates[i].id != t.candidates[j].id {
      assert CandidateId(t.candidates[i]) < CandidateId(t.candidates[j]);
    }
  }

  /** With unique office keys, the office a candidate joins is the one holding its key. */
  lemma FindOfficeUnique(cfg: Config, o: Office)
    requires UniqueConfigKeys(cfg)
    requires o in cfg.offices
    ensures FindOffice(cfg.offices, o.id) == Some(o)
  {
  }

  function TallyCandidate(t: Tally): nat { t.row.candidateId }

  ghost predicate OncePerCandidate(r: seq<Tally>) {
    forall i, j :: 0 <= i < j < |r| ==> TallyCandidate(r[i]) != TallyCandidate(r[j])
  }

  lemma TallyOfCandidate(cfg: Config, votes: seq<Vote>, c: Candidate)
    ensures TallyOf(cfg, votes, c).Some? ==> TallyCandidate(TallyOf(cfg, votes, c).value) == c.id
  {
  }

  lemma ConsOncePerCandidate(t: Tally, rest: seq<Tally>)
    requires OncePerCandidate(rest)
    requires forall k :: 0 <= k < |rest| ==> TallyCandidate(rest[k]) != TallyCandidate(t)
    ensures OncePerCandidate([t] + rest)
  {
    var r := [t] + rest;
    forall i, j | 0 <= i < j < |r| ensures TallyCandidate(r[i]) != TallyCandidate(r[j]) {
      assert r[j] == rest[j - 1];
      if i > 0 { assert r[i] == rest[i - 1]; }
    }
  }

  /** Every grouped row is for the key of some candidate at a position of the table. */
  lemma TallyFromPosition(cfg: Config, votes: seq<Vote>, cands: seq<Candidate>, t: Tally)
    requires t in CandidateTallies(cfg, votes, cands)
    ensures exists j :: 0 <= j < |cands| && cands[j].id == TallyCandidate(t)
  {
    var c :| c in cands && TallyOf(cfg, votes, c) == Some(t);
    TallyOfCandidate(cfg, votes, c);
    var j :| 0 <= j < |cands| && cands[j] == c;
  }

  /** No tally of the later candidates is for the first one. */
  lemma TailTalliesAvoidHead(cfg: Config, votes: seq<Vote>, cands: seq<Candidate>)
    requires cands != [] && UniqueCandidateIds(cands)
    ensures var rest := CandidateTallies(cfg, votes, cands[1..]);
      forall k :: 0 <= k < |rest| ==> TallyCandidate(rest[k]) != cands[0].id
  {
    var tail := cands[1..];
    var rest := CandidateTallies(cfg, votes, tail);
    forall k | 0 <= k < |rest| ensures TallyCandidate(rest[k]) != cands[0].id {
      TallyFromPosition(cfg, votes, tail, rest[k]);
      var j :| 0 <= j < |tail| && tail[j].id == TallyCandidate(rest[k]);
      assert cands[j + 1] == tail[j];
    }
  }

  lemma UniqueTail(cands: seq<Candidate>)
    requires cands != [] && UniqueCandidateIds(cands)
    ensures UniqueCandidateIds(cands[1..])
  {
    var tail := cands[1..];
    forall i, j | 0 <= i < j < |tail| ensures tail[i].id != tail[j].id {
      assert tail[i] == cands[i + 1] && tail[j] == cands[j + 1];
    }
  }

  /** The grouped rows are the first candidate's row, if it has one, then the others'. */
  lemma TalliesCons(cfg: Config, votes: seq<Vote>, cands: seq<Candidate>)
    requires cands != []
    ensures TallyOf(cfg, votes, cands[0]).None? ==>
      CandidateTallies(cfg, votes, cands) == CandidateTallies(cfg, votes, cands[1..])
    ensures TallyOf(cfg, votes, cands[0]).Some? ==>
      CandidateTallies(cfg, votes, cands) ==
        [TallyOf(cfg, votes, cands[0]).value] + CandidateTallies(cfg, votes, cands[1..])
  {
  }

  lemma {:induction false} TalliesOncePerCandidate(cfg: Config, votes: seq<Vote>, cands: seq<Candidate>)
    requires UniqueCandidateIds(cands)
    ensures OncePerCandidate(CandidateTallies(cfg, votes, cands))
  {
    if cands != [] {
      UniqueTail(cands);
      TalliesOncePerCandidate(cfg, votes, cands[1..]);
      TailTalliesAvoidHead(cfg, votes, cands);
      TallyOfCandidate(cfg, votes, cands[0]);
      TalliesCons(cfg, votes, cands);
      var h := TallyOf(cfg, votes, cands[0]);
      if h.Some? {
        ConsOncePerCandidate(h.value, CandidateTallies(cfg, votes, cands[1..]));
      }
    }
  }

  /** With candidate keys unique (they are the primary key), no candidate has two rows. */
  lemma SummaryOncePerCandidate(cfg: Config, votes: seq<Vote>, cands: seq<Candidate>)
    requires UniqueCandidateIds(cands)
    ensures var r := GetSummaryResults(cfg, votes, cands);
      forall i, j :: 0 <= i < j < |r| ==> r[i].candidateId != r[j].candidateId
  {
    TalliesOncePerCandidate(cfg, votes, cands);
    var sorted := SummaryTallies(cfg, votes, cands);
    PermutationKeepsDistinctKeys(CandidateTallies(cfg, votes, cands), sorted, TallyCandidate);
    var r := GetSummaryResults(cfg, votes, cands);
    forall i, j | 0 <= i < j < |r| ensures r[i].candidateId != r[j].candidateId {
      assert TallyCandidate(sorted[i]) != TallyCandidate(sorted[j]);
    }
  }

  /** After a candidate is deleted (its votes detached), the summary has no row for it. */
  lemma DeletedCandidateNotSummarised(cfg: Config, votes: seq<Vote>, cands: seq<Candidate>, xid: nat)
    ensures var r := GetSummaryResults(cfg, DetachVotes(votes, xid), Filter(cands, CandidateOtherThan(xid)));
      forall i :: 0 <= i < |r| ==> r[i].candidateId != xid
  {
    var detached := DetachVotes(votes, xid);
    var r := GetSummaryResults(cfg, detached, Filter(cands, CandidateOtherThan(xid)));
    assert VoteCount(detached, xid) == 0;
    forall i | 0 <= i < |r| ensures r[i].candidateId != xid {
      SummaryRowsCountVotes(cfg, detached, Filter(cands, CandidateOtherThan(xid)), i);
    }
  }

  // ---------------------------------------------------------------- query_offices_for_classgroup

  /** One result row: `[office_title, sortkey, office_vote_for]`. */
  datatype OfficeDetails = OfficeDetails(title: string, sortkey: int, voteFor: int)

  function DetailsOf(o: Office): OfficeDetails {
    OfficeDetails(o.title, o.sortkey, o.voteFor)
  }

  /** The join Office ⋈ Candidate ⋈ Classgrp with the class name filter has a row for `o`. */
  predicate OfficeHasCandidateIn(o: Office, cands: seq<Candidate>, classgrps: seq<Classgrp>, name: string) {
    exists c, g :: c in cands && g in classgrps && c.office == o.id && c.classgrp == g.id && g.name == name
  }

  /** `d` is the selected columns of some office of `offices` that has a candidate in the class. */
  predicate ListedFor(d: OfficeDetails, offices: seq<Office>, cands: seq<Candidate>, classgrps: seq<Classgrp>, name: string) {
    exists o :: o in offices && DetailsOf(o) == d && OfficeHasCandidateIn(o, cands, classgrps, name)
  }

  /** The selected columns of the joined rows, per office in table order. */
  function ClassOffices(offices: seq<Office>, cands: seq<Candidate>, classgrps: seq<Classgrp>, name: string)
    : (r: seq<OfficeDetails>)
    ensures forall d :: d in r <==> ListedFor(d, offices, cands, classgrps, name)
  {
    if offices == [] then []
    else
      assert forall o :: o in offices <==> o == offices[0] || o in offices[1..];
      var head := if OfficeHasCandidateIn(offices[0], cands, classgrps, name) then [DetailsOf(offices[0])] else [];
      head + ClassOffices(offices[1..], cands, classgrps, name)
  }

  predicate SortkeyBefore(a: OfficeDetails, b: OfficeDetails) {
    a.sortkey <= b.sortkey
  }

  lemma SortkeyOrderIsTotal()
    ensures TotalPreorder(SortkeyBefore)
  {
  }

  /** `Office.query_offices_for_classgroup_with_details_as_list`: each office with at least one
      candidate in the class named `name`, once, ordered by office sortkey. */
  function QueryOfficesForClassgroup(cfg: Config, cands: seq<Candidate>, name: string): (r: seq<OfficeDetails>)
    ensures forall d :: d in r <==> ListedFor(d, cfg.offices, cands, cfg.classgrps, name)
    ensures NoDuplicates(r)
    ensures forall i, j :: 0 <= i < j < |r| ==> r[i].sortkey <= r[j].sortkey
  {
    var distinct := Distinct(ClassOffices(cfg.offices, cands, cfg.classgrps, name));
    SortkeyOrderIsTotal();
    var r := SortBy(distinct, SortkeyBefore);
    PermutationKeepsNoDuplicates(distinct, r);
    PermutationKeepsMembers(distinct, r);
    assert forall i, j :: 0 <= i < j < |r| ==> SortkeyBefore(r[i], r[j]);
    r
  }

  /** When office sortkeys are unique (the schema says they are), the result is strictly
      increasing in sortkey. */
  lemma OfficesStrictlyOrdered(cfg: Config, cands: seq<Candidate>, name: string)
    requires forall i, j :: 0 <= i < j < |cfg.offices| ==> cfg.offices[i].sortkey != cfg.offices[j].sortkey
    ensures var r := QueryOfficesForClassgroup(cfg, cands, name);
      forall i, j :: 0 <= i < j < |r| ==> r[i].sortkey < r[j].sortkey
  {
    var r := QueryOfficesForClassgroup(cfg, cands, name);
    forall i, j | 0 <= i < j < |r| ensures r[i].sortkey < r[j].sortkey {
      assert ListedFor(r[i], cfg.offices, cands, cfg.classgrps, name);
      assert ListedFor(r[j], cfg.offices, cands, cfg.classgrps, name);
      var oi :| oi in cfg.offices && DetailsOf(oi) == r[i];
      var oj :| oj in cfg.offices && DetailsOf(oj) == r[j];
      var a :| 0 <= a < |cfg.offices| && cfg.offices[a] == oi;
      var b :| 0 <= b < |cfg.offices| && cfg.offices[b] == oj;
      assert r[i] != r[j];
      if a < b { assert oi.sortkey != oj.sortkey; }
      else if b < a { assert oj.sortkey != oi.sortkey; }
    }
  }
}
