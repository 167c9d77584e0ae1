/** The token screens of election1/misc/view.py: the selector form of `setup_tokens`, the
    deletion of a selector, the batch build of `build_tokens` and the one-off issue of
    `single_token`, over the Tokenlistselectors and Tokenlist tables of the Models module.
    The token generator is a parameter: `draw(i)` is the text of the i-th token it returns. */
module Tokens {
  import opened Common
  import opened Models

  // ---------------------------------------------------------------- scope strings

  /** The four group tiers of a selector in order primary, secondary, tertiary, quaternary. */
  function Tiers(s: TokenSelector): seq<Option<string>> {
    [Some(s.primary), s.secondary, s.tertiary, s.quaternary]
  }

  /** `filter(None, tiers)`: the tiers that are neither NULL nor empty, in order. */
  function PresentTiers(tiers: seq<Option<string>>): (r: seq<string>)
    ensures |r| <= |tiers|
    ensures forall i :: 0 <= i < |r| ==> r[i] != ""
  {
    if tiers == [] then []
    else
      var rest := PresentTiers(tiers[1..]);
      if tiers[0].Some? && tiers[0].value != "" then [tiers[0].value] + rest else rest
  }

  /** A text is kept exactly when it is a non-empty tier. */
  lemma {:induction false} PresentTiersMembers(tiers: seq<Option<string>>)
    ensures forall v :: v in PresentTiers(tiers) <==> v != "" && Some(v) in tiers
  {
    if tiers != [] {
      PresentTiersMembers(tiers[1..]);
      assert forall t :: t in tiers <==> t == tiers[0] || t in tiers[1..];
    }
  }

  /** The scope string of a selector: its present tiers joined by '$'. */
  function ScopeString(s: TokenSelector): string {
    Join(PresentTiers(Tiers(s)), '$')
  }

  /** The cast route can take a scope string apart again: with a non-empty primary tier and
      no '$' inside any tier, splitting on '$' gives back exactly the present tiers. */
  lemma ScopeStringRoundTrip(s: TokenSelector)
    requires s.primary != ""
    requires forall i :: 0 <= i < 4 && Tiers(s)[i].Some? ==> '$' !in Tiers(s)[i].value
    ensures Split(ScopeString(s), '$') == PresentTiers(Tiers(s))
  {
    var p := PresentTiers(Tiers(s));
    assert p[0] == s.primary;
    PresentTiersMembers(Tiers(s));
    forall i | 0 <= i < |p| ensures '$' !in p[i] {
      assert p[i] in p;
      var k :| 0 <= k < 4 && Tiers(s)[k] == Some(p[i]);
    }
    SplitJoin(p, '$');
  }

  /** A selector with only a primary tier is scoped by that tier alone; NULL and empty tiers
      leave no trace in the string. */
  lemma PrimaryOnlyScope(primary: string, id: nat, secondary: Option<string>, tertiary: Option<string>,
                         quaternary: Option<string>)
    requires secondary.None? || secondary == Some("")
    requires tertiary.None? || tertiary == Some("")
    requires quaternary.None? || quaternary == Some("")
    ensures ScopeString(TokenSelector(id, primary, secondary, tertiary, quaternary)) ==
      (if primary == "" then "" else primary)
  {
    var t := Tiers(TokenSelector(id, primary, secondary, tertiary, quaternary));
    assert t[1..] == [secondary, tertiary, quaternary];
    assert t[2..] == [tertiary, quaternary];
    assert t[3..] == [quaternary];
    assert PresentTiers(t[3..]) == [];
    assert PresentTiers(t[2..]) == [];
    assert PresentTiers(t[1..]) == [];
  }

  /** With all four tiers filled in, the scope lists them in order with '$' between. */
  lemma FullScope(s: TokenSelector)
    requires s.primary != ""
    requires s.secondary.Some? && s.secondary.value != ""
    requires s.tertiary.Some? && s.tertiary.value != ""
    requires s.quaternary.Some? && s.quaternary.value != ""
    ensures ScopeString(s) ==
      s.primary + "$" + (s.secondary.value + "$" + (s.tertiary.value + "$" + s.quaternary.value))
  {
    var t := Tiers(s);
    assert t[1..] == [s.secondary, s.tertiary, s.quaternary];
    assert t[2..] == [s.tertiary, s.quaternary];
    assert t[3..] == [s.quaternary];
    assert PresentTiers(t[3..]) == [s.quaternary.value];
    assert PresentTiers(t[2..]) == [s.tertiary.value, s.quaternary.value];
    assert PresentTiers(t[1..]) == [s.secondary.value, s.tertiary.value, s.quaternary.value];
    var p := PresentTiers(t);
    var a, b, c, d := s.primary, s.secondary.value, s.tertiary.value, s.quaternary.value;
    assert p == [a, b, c, d];
    assert p[3..] == [d] && p[2..] == [c, d] && p[1..] == [b, c, d];
    assert Join(p[2..], '$') == c + "$" + d;
    assert Join(p[1..], '$') == b + "$" + (c + "$" + d);
    assert Join(p, '$') == a + "$" + (b + "$" + (c + "$" + d));
  }

  /** A gap between tiers leaves no empty piece: "Senior", NULL, "North", NULL gives "Senior$North". */
  lemma GapSkipped()
    ensures ScopeString(TokenSelector(0, "Senior", None, Some("North"), None)) == "Senior$North"
  {
    var p := PresentTiers(Tiers(TokenSelector(0, "Senior", None, Some("North"), None)));
    assert p == ["Senior", "North"];
    assert Join(p[1..], '$') == "North";
  }

  // ---------------------------------------------------------------- setup_tokens

  /** The tier fields a POST submits; None when a field is absent from the form. */
  datatype SelectorForm = SelectorForm(
    primary: Option<string>, secondary: Option<string>, tertiary: Option<string>, quaternary: Option<string>)

  /** The columns of a selector row still to be inserted. */
  datatype SelectorFields = SelectorFields(
    primary: string, secondary: Option<string>, tertiary: Option<string>, quaternary: Option<string>)

  datatype SetupError =
    | CsrfFailed          // the form's CSRF token did not validate
    | PrimaryNotSelected  // "Primary group must be selected"
    | PrimaryMissing      // no primary field: the NOT NULL column refuses the row

  /** A lower tier sent as the placeholder is stored as NULL. */
  function NormaliseTier(v: Option<string>): (r: Option<string>)
    ensures r.None? <==> v.None? || v == Some(PleaseSelect)
    ensures r.Some? ==> r == v
  {
    if v == Some(PleaseSelect) then None else v
  }

  /** The row `setup_tokens` would add for a submitted form, or why it adds none. */
  function SelectorFromForm(form: SelectorForm, csrfOk: bool): (r: Result<SelectorFields, SetupError>)
    ensures r == Failure(CsrfFailed) <==> !csrfOk
    ensures r == Failure(PrimaryNotSelected) <==> csrfOk && form.primary == Some(PleaseSelect)
    ensures r == Failure(PrimaryMissing) <==> csrfOk && form.primary.None?
    ensures r.Success? <==> csrfOk && form.primary.Some? && form.primary != Some(PleaseSelect)
    ensures r.Success? ==> r.value.primary == form.primary.value
    ensures r.Success? ==>
      && (r.value.secondary.None? <==> form.secondary.None? || form.secondary == Some(PleaseSelect))
      && (r.value.tertiary.None? <==> form.tertiary.None? || form.tertiary == Some(PleaseSelect))
      && (r.value.quaternary.None? <==> form.quaternary.None? || form.quaternary == Some(PleaseSelect))
    ensures r.Success? ==>
      && (r.value.secondary.Some? ==> r.value.secondary == form.secondary)
      && (r.value.tertiary.Some? ==> r.value.tertiary == form.tertiary)
      && (r.value.quaternary.Some? ==> r.value.quaternary == form.quaternary)
  {
    if !csrfOk then Failure(CsrfFailed)
    else if form.primary == Some(PleaseSelect) then Failure(PrimaryNotSelected)
    else if form.primary.None? then Failure(PrimaryMissing)
    else Success(SelectorFields(form.primary.value, NormaliseTier(form.secondary),
                                NormaliseTier(form.tertiary), NormaliseTier(form.quaternary)))
  }

  datatype SetupOutcome = SetupRejected(reason: SetupError) | SelectorStoreFailed | SelectorAdded(id: nat)

  /** The POST branch of `setup_tokens`: validate, then add the selector and commit;
      `storageOk` is whether the commit succeeds. */
  method SetupTokens(table: SelectorTable, form: SelectorForm, csrfOk: bool, storageOk: bool)
    returns (outcome: SetupOutcome)
    requires table.Valid()
    modifies table
    ensures table.Valid()
    ensures SelectorFromForm(form, csrfOk).Failure? ==>
      outcome == SetupRejected(SelectorFromForm(form, csrfOk).error) && unchanged(table)
    ensures SelectorFromForm(form, csrfOk).Success? && !storageOk ==>
      outcome == SelectorStoreFailed && unchanged(table)
    ensures SelectorFromForm(form, csrfOk).Success? && storageOk ==>
      var f := SelectorFromForm(form, csrfOk).value;
      && outcome == SelectorAdded(old(table.nextId))
      && table.rows == old(table.rows) + [TokenSelector(old(table.nextId), f.primary, f.secondary, f.tertiary, f.quaternary)]
  {
    match SelectorFromForm(form, csrfOk)
    case Failure(e) =>
      outcome := SetupRejected(e);
    case Success(f) =>
      if !storageOk {
        outcome := SelectorStoreFailed;
      } else {
        var id := table.Add(f.primary, f.secondary, f.tertiary, f.quaternary);
        outcome := SelectorAdded(id);
      }
  }

  // ---------------------------------------------------------------- delete_tokenlistselector

  datatype DeleteOutcome = SelectorNotFound | SelectorDeleteFailed | SelectorDeleted

  /** `delete_tokenlistselector`: a 404 for an unknown key, otherwise delete and commit. */
  method DeleteTokenlistSelector(table: SelectorTable, xid: nat, storageOk: bool) returns (outcome: DeleteOutcome)
    requires table.Valid()
    modifies table
    ensures table.Valid()
    ensures GetSelectorById(old(table.rows), xid).None? ==> outcome == SelectorNotFound && unchanged(table)
    ensures GetSelectorById(old(table.rows), xid).Some? && !storageOk ==>
      outcome == SelectorDeleteFailed && unchanged(table)
    ensures GetSelectorById(old(table.rows), xid).Some? && storageOk ==>
      outcome == SelectorDeleted && table.rows == Filter(old(table.rows), SelectorOtherThan(xid))
  {
    if GetSelectorById(table.rows, xid).None? {
      outcome := SelectorNotFound;
    } else if !storageOk {
      outcome := SelectorDeleteFailed;
    } else {
      var _ := table.Delete(xid);
      outcome := SelectorDeleted;
    }
  }

  /** After the delete no selector with that key is left. */
  lemma DeletedSelectorGone(rows: seq<TokenSelector>, xid: nat)
    ensures GetSelectorById(Filter(rows, SelectorOtherThan(xid)), xid).None?
  {
    var r := Filter(rows, SelectorOtherThan(xid));
    forall s | s in r ensures s.id != xid {
      assert SelectorOtherThan(xid)(s);
    }
  }

  // ---------------------------------------------------------------- build_tokens

  /** Number of tokens a batch build issues: rows 0 to 100. */
  const BatchSize := 101

  /** The scope strings of the selectors, in table order. */
  function Scopes(selectors: seq<TokenSelector>): (r: seq<string>)
    ensures |r| == |selectors|
  {
    seq(|selectors|, i requires 0 <= i < |selectors| => ScopeString(selectors[i]))
  }

  /** The i-th draw of the generator repeats an earlier one. */
  predicate RepeatsEarlier(draw: nat -> string, i: nat) {
    exists j :: 0 <= j < i && draw(j) == draw(i)
  }

  /** How many rows a build commits from row `i` on: it stops at the first draw that repeats an
      earlier one (the unique constraint refuses it), or after the last row. */
  function BatchLength(draw: nat -> string, i: nat): (n: nat)
    requires i <= BatchSize
    ensures i <= n <= BatchSize
    ensures forall k :: i <= k < n ==> !RepeatsEarlier(draw, k)
    ensures n < BatchSize ==> RepeatsEarlier(draw, n)
    decreases BatchSize - i
  {
    if i == BatchSize then BatchSize
    else if RepeatsEarlier(draw, i) then i
    else BatchLength(draw, i + 1)
  }

  /** Row i of a build whose scopes are `scopes`: key `base + i`, the scope
      `scopes[i % |scopes|]`, the i-th drawn token and no submission time. */
  function BatchRow(scopes: seq<string>, draw: nat -> string, base: nat, i: nat): TokenRow
    requires |scopes| > 0
  {
    TokenRow(base + i, scopes[i % |scopes|], draw(i), None)
  }

  /** The first `m` rows of a build. */
  function BatchRows(scopes: seq<string>, draw: nat -> string, base: nat, m: nat): (r: seq<TokenRow>)
    requires |scopes| > 0
    ensures |r| == m
    ensures forall i :: 0 <= i < m ==> r[i] == BatchRow(scopes, draw, base, i)
  {
    if m == 0 then []
    else BatchRows(scopes, draw, base, m - 1) + [BatchRow(scopes, draw, base, m - 1)]
  }

  /** The next draw is already in the ledger exactly when it repeats an earlier draw. */
  lemma BatchHasToken(scopes: seq<string>, draw: nat -> string, base: nat, m: nat)
    requires |scopes| > 0
    ensures HasToken(BatchRows(scopes, draw, base, m), draw(m)) <==> RepeatsEarlier(draw, m)
  {
    var r := BatchRows(scopes, draw, base, m);
    if RepeatsEarlier(draw, m) {
      var j :| 0 <= j < m && draw(j) == draw(m);
      assert r[j].token == draw(m);
    }
  }

  /** The for-loop of `build_tokens` that collects every selector's scope string. */
  method ComposeScopes(selectors: seq<TokenSelector>) returns (selectorList: seq<string>)
    ensures selectorList == Scopes(selectors)
  {
    selectorList := [];
    for i := 0 to |selectors|
      invariant |selectorList| == i
      invariant forall j :: 0 <= j < i ==> selectorList[j] == ScopeString(selectors[j])
    {
      selectorList := selectorList + [ScopeString(selectors[i])];
    }
  }

  datatype BuildOutcome =
    | NoSelectors            // `row % 0` raises before the first insert
    | InsertFailed(row: nat) // the insert of this row was rolled back and the build stopped
    | BatchBuilt

  /** One pass of the `while row < 101` loop: draw a token and insert row `row`. */
  method IssueBatchRow(ledger: TokenLedger, scopes: seq<string>, draw: nat -> string, base: nat, row: nat)
    returns (ok: bool)
    requires |scopes| > 0 && row < BatchSize && row <= BatchLength(draw, 0)
    requires ledger.Valid()
    requires ledger.rows == BatchRows(scopes, draw, base, row) && ledger.nextId == base + row
    modifies ledger
    ensures ledger.Valid()
    ensures ok <==> row < BatchLength(draw, 0)
    ensures ok ==> ledger.rows == BatchRows(scopes, draw, base, row + 1) && ledger.nextId == base + row + 1
    ensures !ok ==> unchanged(ledger)
  {
    var token := draw(row);
    var eclass := row % |scopes|;
    BatchHasToken(scopes, draw, base, row);
    ghost var next := BatchRows(scopes, draw, base, row + 1);
    assert next == ledger.rows + [BatchRow(scopes, draw, base, row)];
    ok := ledger.Add(scopes[eclass], token);
  }

  /** `build_tokens`: empties the ledger, composes the scope string of every selector, then
      issues rows 0 to 100, row i with the i-th drawn token and the scope of selector
      `i % k` among the k selectors, stopping at the first insert that fails. */
  method BuildTokens(selectors: SelectorTable, ledger: TokenLedger, draw: nat -> string)
    returns (outcome: BuildOutcome)
    requires ledger.Valid()
    modifies ledger
    ensures ledger.Valid()
    ensures |selectors.rows| == 0 ==> outcome == NoSelectors && ledger.rows == []
    ensures |selectors.rows| > 0 ==>
      var n := BatchLength(draw, 0);
      && ledger.rows == BatchRows(Scopes(selectors.rows), draw, old(ledger.nextId), n)
      && (outcome == BatchBuilt <==> n == BatchSize)
      && (n < BatchSize ==> outcome == InsertFailed(n))
  {
    ledger.DeleteAll();
    var base := ledger.nextId;
    var selectorList := ComposeScopes(selectors.rows);
    var selectorCount := |selectorList|;
    if selectorCount == 0 {
      return NoSelectors;
    }

    ghost var n := BatchLength(draw, 0);
    var row := 0;
    while row < BatchSize
      invariant 0 <= row <= n
      invariant ledger.Valid()
      invariant ledger.rows == BatchRows(selectorList, draw, base, row)
      invariant ledger.nextId == base + row
    {
      var ok := IssueBatchRow(ledger, selectorList, draw, base, row);
      row := row + 1;
      if !ok {
        return InsertFailed(row - 1);
      }
    }
    return BatchBuilt;
  }

  /** A generator whose 101 draws are pairwise different fills the whole batch. */
  lemma FreshDrawsFillBatch(draw: nat -> string)
    requires forall i, j :: 0 <= i < j < BatchSize ==> draw(i) != draw(j)
    ensures BatchLength(draw, 0) == BatchSize
  {
  }

  lemma MulAtLeast(k: nat, d: int)
    requires d >= 1
    ensures k * d >= k
  {
    var e: nat := d - 1;
    assert k * d == k * e + k;
  }

  /** Euclidean division leaves one remainder only. */
  lemma ModUnique(a: int, k: nat, q: int, r: int)
    requires k > 0 && 0 <= r < k && a == k * q + r
    ensures a % k == r
  {
    var q0, r0 := a / k, a % k;
    assert k * q + r == k * q0 + r0;
    if q > q0 {
      MulAtLeast(k, q - q0);
    } else if q < q0 {
      MulAtLeast(k, q0 - q);
    }
  }

  lemma ModStep(i: nat, k: nat)
    requires k > 0
    ensures (i + k) % k == i % k
    ensures i < k ==> i % k == i
  {
    assert i + k == k * (i / k + 1) + i % k;
    ModUnique(i + k, k, i / k + 1, i % k);
    if i < k {
      ModUnique(i, k, 0, i);
    }
  }

  /** Round robin: rows k apart get the same scope, and the first k rows take the k selectors'
      scopes in table order. */
  lemma RoundRobin(selectors: seq<TokenSelector>, draw: nat -> string, base: nat, m: nat, i: nat)
    requires |selectors| > 0
    requires i < m
    ensures var r := BatchRows(Scopes(selectors), draw, base, m);
      && (i < |selectors| ==> r[i].grpList == ScopeString(selectors[i]))
      && (i + |selectors| < m ==> r[i + |selectors|].grpList == r[i].grpList)
  {
    ModStep(i, |selectors|);
  }

  // ---------------------------------------------------------------- single_token

  /** The link printed under the QR code: the cast route with the scope and the token. */
  function CastLink(host: string, port: string, scope: string, token: string): string {
    "http://" + host + ":" + port + "/cast/" + scope + "/" + token
  }

  /** The link falls apart at '/' into the scheme, the authority, the route name, the scope and
      the token, so the cast route receives the scope and token that were issued. */
  lemma CastLinkParts(host: string, port: string, scope: string, token: string)
    requires '/' !in host && '/' !in port && '/' !in scope && '/' !in token
    ensures Split(CastLink(host, port, scope, token), '/') == ["http:", "", host + ":" + port, "cast", scope, token]
  {
    var parts := ["http:", "", host + ":" + port, "cast", scope, token];
    assert Join(parts[5..], '/') == token;
    assert Join(parts[4..], '/') == scope + "/" + token;
    assert Join(parts[3..], '/') == "cast/" + scope + "/" + token;
    assert Join(parts[2..], '/') == host + ":" + port + "/cast/" + scope + "/" + token;
    assert Join(parts[1..], '/') == "/" + host + ":" + port + "/cast/" + scope + "/" + token;
    assert Join(parts, '/') == CastLink(host, port, scope, token);
    forall i | 0 <= i < |parts| ensures '/' !in parts[i] {
      if i == 2 {
        assert forall c :: c in host + ":" + port ==> c in host || c == ':' || c in port;
      }
    }
    SplitJoin(parts, '/');
  }

  datatype SingleOutcome = UnknownSelector | SingleInsertFailed | Issued(link: string)

  /** `single_token`: adds one unsubmitted token scoped to selector `xid` and returns its link;
      an unknown selector fails before any insert, and a duplicate token is rolled back. */
  method SingleToken(selectors: SelectorTable, ledger: TokenLedger, xid: nat, token: string,
                     host: string, port: string)
    returns (outcome: SingleOutcome)
    requires ledger.Valid()
    modifies ledger
    ensures ledger.Valid()
    ensures GetSelectorById(selectors.rows, xid).None? ==> outcome == UnknownSelector && unchanged(ledger)
    ensures GetSelectorById(selectors.rows, xid).Some? ==>
      var scope := ScopeString(GetSelectorById(selectors.rows, xid).value);
      && (HasToken(old(ledger.rows), token) ==> outcome == SingleInsertFailed && unchanged(ledger))
      && (!HasToken(old(ledger.rows), token) ==>
            && outcome == Issued(CastLink(host, port, scope, token))
            && ledger.rows == old(ledger.rows) + [TokenRow(old(ledger.nextId), scope, token, None)]
            && GetTokenlistRecord(ledger.rows, token) == Record(TokenRecord(old(ledger.nextId), scope, token, None)))
  {
    var qrtoken := GetSelectorById(selectors.rows, xid);
    if qrtoken.None? {
      return UnknownSelector;
    }
    var selectorString := ScopeString(qrtoken.value);
    ghost var before := ledger.rows;
    var ok := ledger.Add(selectorString, token);
    if !ok {
      return SingleInsertFailed;
    }
    LookupAppended(before, TokenRow(ledger.nextId - 1, selectorString, token, None));
    outcome := Issued(CastLink(host, port, selectorString, token));
  }
}
