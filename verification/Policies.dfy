/**
 * Operational policies: an append-only ledger of versions with two writers, the node's own and the
 * coordinator it follows, and a reader of the active one.
 */
module Policies {
  import opened Wrappers
  import opened Selection

  type PolicyId = int
  type Code = int

  datatype Kind = DiscountKind | TaxKind

  datatype Version = Version(kind: Kind, version: nat, active: bool)

  /** A configured policy; the eligible codes of a tax are sets. */
  datatype Config = Discount(maximum: int) | Tax(rate: int, methods: set<Code>, currencies: set<Code>)

  /** What the node is asked to activate: codes already normalized, in the order the caller's locale gives them. */
  datatype Input = DiscountInput(maximum: int) | TaxInput(rate: int, methods: seq<Code>, currencies: seq<Code>)

  /** The eligible codes are child rows of a tax policy, kept here under its id. */
  type Codes = map<PolicyId, set<Code>>

  datatype Tables = Tables(
    versions: map<PolicyId, Version>, discounts: map<PolicyId, int>, rates: map<PolicyId, int>,
    methods: Codes, currencies: Codes)

  const EMPTY := Tables(map[], map[], map[], map[], map[])

  datatype Activation = Unchanged(id: PolicyId, version: nat) | Created(newId: PolicyId, newVersion: nat) | Rejected

  datatype Publication = Applied | Stale | Refused

  // ---------- queries ----------

  function KindOf(config: Config): Kind {
    if config.Discount? then DiscountKind else TaxKind
  }

  function ConfigOf(input: Input): Config {
    match input
    case DiscountInput(maximum) => Discount(maximum)
    case TaxInput(rate, methods, currencies) => Tax(rate, set c | c in methods, set c | c in currencies)
  }

  function VersionOf(t: Tables, p: PolicyId): nat {
    if p in t.versions then t.versions[p].version else 0
  }

  predicate Higher(t: Tables, a: PolicyId, b: PolicyId) {
    VersionOf(t, b) < VersionOf(t, a) || (VersionOf(t, a) == VersionOf(t, b) && a < b)
  }

  predicate Tops(t: Tables, top: PolicyId, ids: set<PolicyId>) {
    top in ids && forall p :: p in ids && p != top ==> Higher(t, top, p)
  }

  lemma HasHighest(t: Tables, ids: set<PolicyId>)
    requires ids != {}
    ensures exists top :: Tops(t, top, ids)
  {
    var before := (a, b) => Higher(t, a, b);
    var top := LeastOf(ids, before);
    assert forall p :: p in ids && p != top ==> before(top, p);
    assert Tops(t, top, ids);
  }

  /** The rows of a query, highest version first: the first of them. */
  function Highest(t: Tables, ids: set<PolicyId>): (id: Option<PolicyId>)
    ensures id.None? <==> ids == {}
    ensures id.Some? ==> id.value in ids && forall p :: p in ids && p != id.value ==> Higher(t, id.value, p)
  {
    if ids == {} then None
    else
      HasHighest(t, ids);
      var top :| top in ids && Tops(t, top, ids);
      Some(top)
  }

  function OfKind(t: Tables, kind: Kind): set<PolicyId> {
    set p | p in t.versions && t.versions[p].kind == kind
  }

  function ActiveOf(t: Tables, kind: Kind): set<PolicyId> {
    set p | p in t.versions && t.versions[p].kind == kind && t.versions[p].active
  }

  /** `max(version)`, zero when there is none. */
  function Maximum(t: Tables, kind: Kind): (v: nat)
    ensures forall p :: p in t.versions && t.versions[p].kind == kind ==> t.versions[p].version <= v
    ensures v == 0 || exists p :: p in t.versions && t.versions[p].kind == kind && t.versions[p].version == v
  {
    var ids := OfKind(t, kind);
    var top := Highest(t, ids);
    assert forall p :: p in t.versions && t.versions[p].kind == kind ==> p in ids;
    if top.None? then 0 else t.versions[top.value].version
  }

  function CodesOf(codes: Codes, id: PolicyId): set<Code> {
    if id in codes then codes[id] else {}
  }

  /** `order by code`. */
  function InSqlOrder(codes: set<Code>): seq<Code> {
    Ascending(codes)
  }

  /** What the stored configuration of a policy says. */
  function Stored(t: Tables, id: PolicyId): Option<Config> {
    if id !in t.versions then None
    else if t.versions[id].kind.DiscountKind? then
      if id in t.discounts then Some(Discount(t.discounts[id])) else None
    else if id in t.rates then Some(Tax(t.rates[id], CodesOf(t.methods, id), CodesOf(t.currencies, id)))
    else None
  }

  /** The provider: the active policy with its configuration, the highest version first. */
  function Provided(t: Tables, kind: Kind): Option<(PolicyId, Config)> {
    var row := Highest(t, set p | p in ActiveOf(t, kind) && Stored(t, p).Some?);
    if row.None? then None else Some((row.value, Stored(t, row.value).value))
  }

  /** Codes are compared in order: what SQL returns against what the caller's locale sorted. */
  predicate SameAs(t: Tables, id: PolicyId, input: Input) {
    match input
    case DiscountInput(maximum) => id in t.discounts && t.discounts[id] == maximum
    case TaxInput(rate, methods, currencies) =>
      && id in t.rates && t.rates[id] == rate
      && InSqlOrder(CodesOf(t.methods, id)) == methods
      && InSqlOrder(CodesOf(t.currencies, id)) == currencies
  }

  // ---------- what each call makes of the tables ----------

  predicate InRange(config: Config) {
    0 <= (if config.Discount? then config.maximum else config.rate) <= 10_000
  }

  function Deactivated(versions: map<PolicyId, Version>, kind: Kind): map<PolicyId, Version> {
    map p | p in versions :: if versions[p].kind == kind then versions[p].(active := false) else versions[p]
  }

  function Linked(codes: Codes, id: PolicyId, more: set<Code>): Codes {
    if more == {} then codes else codes[id := CodesOf(codes, id) + more]
  }

  function Configured(t: Tables, id: PolicyId, config: Config): Tables {
    match config
    case Discount(maximum) => t.(discounts := t.discounts[id := maximum])
    case Tax(rate, methods, currencies) =>
      t.(rates := t.rates[id := rate],
         methods := Linked(t.methods, id, methods), currencies := Linked(t.currencies, id, currencies))
  }

  /** A new active version with its configuration, its predecessor deactivated. */
  function Recorded(t: Tables, id: PolicyId, version: nat, config: Config): Tables {
    var kind := KindOf(config);
    Configured(t.(versions := Deactivated(t.versions, kind)[id := Version(kind, version, true)]), id, config)
  }

  function Activated(t: Tables, input: Input, id: PolicyId): (Activation, Tables) {
    var config := ConfigOf(input);
    var active := Highest(t, ActiveOf(t, KindOf(config)));
    var version := Maximum(t, KindOf(config)) + 1;
    if active.Some? && SameAs(t, active.value, input)
    then (Unchanged(active.value, t.versions[active.value].version), t)
    else if id in t.versions || !InRange(config) then (Rejected, t)
    else (Created(id, version), Recorded(t, id, version, config))
  }

  function Published(t: Tables, config: Config, id: PolicyId, version: nat): (Publication, Tables) {
    if version <= Maximum(t, KindOf(config)) then (Stale, t)
    else if id in t.versions || !InRange(config) then (Refused, t)
    else (Applied, Recorded(t, id, version, config))
  }

  lemma LinkedOneMore(codes: Codes, id: PolicyId, more: set<Code>, c: Code)
    ensures
      var r := Linked(codes, id, more);
      r[id := CodesOf(r, id) + {c}] == Linked(codes, id, more + {c})
  {
    assert CodesOf(codes, id) + {} == CodesOf(codes, id);
    assert CodesOf(codes, id) + (more + {c}) == CodesOf(codes, id) + more + {c};
  }

  /** Inserts the codes of a policy one by one. */
  method InsertCodes(codes: Codes, id: PolicyId, more: seq<Code>) returns (r: Codes)
    ensures r == Linked(codes, id, set c | c in more)
  {
    r := codes;
    for i := 0 to |more|
      invariant r == Linked(codes, id, Listed(more[..i]))
    {
      r := r[id := CodesOf(r, id) + {more[i]}];
      assert forall c :: c in more[..i + 1] <==> c in more[..i] || c == more[i];
      assert Listed(more[..i + 1]) == Listed(more[..i]) + {more[i]};
      LinkedOneMore(codes, id, Listed(more[..i]), more[i]);
    }
    assert more[..|more|] == more;
  }

  function Listed(codes: seq<Code>): set<Code> {
    set c | c in codes
  }

  class PolicyStore {
    var versions: map<PolicyId, Version>
    var discounts: map<PolicyId, int>
    var rates: map<PolicyId, int>
    var methods: Codes
    var currencies: Codes

    function Snapshot(): Tables
      reads this
    {
      Tables(versions, discounts, rates, methods, currencies)
    }

    constructor ()
      ensures Snapshot() == EMPTY
    {
      versions, discounts, rates, methods, currencies := map[], map[], map[], map[], map[];
    }

    /** The configuration rows of a version. */
    method Configure(id: PolicyId, input: Input)
      modifies this`discounts, this`rates, this`methods, this`currencies
      ensures Snapshot() == Configured(old(Snapshot()), id, ConfigOf(input))
    {
      match input
      case DiscountInput(maximum) => discounts := discounts[id := maximum];
      case TaxInput(rate, eligibleMethods, eligibleCurrencies) =>
        rates := rates[id := rate];
        methods := InsertCodes(methods, id, eligibleMethods);
        currencies := InsertCodes(currencies, id, eligibleCurrencies);
    }

    /** The node's own writer deactivates the one active row it found. */
    method Activate(input: Input, id: PolicyId) returns (activation: Activation)
      requires Sound(Snapshot())
      modifies this
      ensures (activation, Snapshot()) == Activated(old(Snapshot()), input, id)
    {
      var kind := KindOf(ConfigOf(input));
      var active := Highest(Snapshot(), ActiveOf(Snapshot(), kind));
      if active.Some? && SameAs(Snapshot(), active.value, input) {
        return Unchanged(active.value, versions[active.value].version);
      }
      var version := Maximum(Snapshot(), kind) + 1;
      if id in versions || !InRange(ConfigOf(input)) {
        return Rejected;
      }
      DeactivatedIsOne(Snapshot(), kind);
      if active.Some? {
        versions := versions[active.value := versions[active.value].(active := false)];
      }
      versions := versions[id := Version(kind, version, true)];
      Configure(id, input);
      return Created(id, version);
    }

    /** The coordinator's deactivates whatever is active of the kind. */
    method ApplyOperationalPolicy(input: Input, id: PolicyId, version: nat) returns (answer: Publication)
      modifies this
      ensures (answer, Snapshot()) == Published(old(Snapshot()), ConfigOf(input), id, version)
    {
      if version <= Maximum(Snapshot(), KindOf(ConfigOf(input))) {
        return Stale;
      }
      if id in versions || !InRange(ConfigOf(input)) {
        return Refused;
      }
      var kind := KindOf(ConfigOf(input));
      versions := Deactivated(versions, kind)[id := Version(kind, version, true)];
      Configure(id, input);
      return Applied;
    }
  }

  // ---------- the ledger ----------

  type Ledger = map<PolicyId, Version>

  predicate IsActive(v: Ledger, p: PolicyId) {
    p in v && v[p].active
  }

  /** A version belongs to one policy of its kind. */
  ghost predicate Distinct(v: Ledger) {
    forall p, q :: p in v && q in v && v[p].kind == v[q].kind && v[p].version == v[q].version ==> p == q
  }

  /** An active version is the greatest of its kind. */
  ghost predicate ActiveLeads(v: Ledger) {
    forall p, q :: IsActive(v, p) && q in v && v[q].kind == v[p].kind ==> v[q].version <= v[p].version
  }

  predicate HasActive(v: Ledger, kind: Kind) {
    exists p :: p in v && IsActive(v, p) && v[p].kind == kind
  }

  /** A kind that has versions has an active one. */
  predicate Covered(v: Ledger) {
    forall p :: p in v ==> HasActive(v, v[p].kind)
  }

  /** Every version has the configuration of its kind, and no row configures anything else. */
  ghost predicate Complete(t: Tables) {
    && (forall p :: p in t.discounts <==> p in t.versions && t.versions[p].kind.DiscountKind?)
    && (forall p :: p in t.rates <==> p in t.versions && t.versions[p].kind.TaxKind?)
    && (forall p :: p in t.methods || p in t.currencies ==> p in t.rates)
  }

  ghost predicate Sound(t: Tables) {
    Distinct(t.versions) && ActiveLeads(t.versions) && Covered(t.versions) && Complete(t)
  }

  lemma OnlyRow(t: Tables, ids: set<PolicyId>, p: PolicyId)
    requires ids == {p}
    ensures Highest(t, ids) == Some(p)
  {
  }

  lemma ActiveIsOnly(t: Tables, p: PolicyId)
    requires Distinct(t.versions) && ActiveLeads(t.versions) && IsActive(t.versions, p)
    ensures ActiveOf(t, t.versions[p].kind) == {p}
    ensures forall q :: IsActive(t.versions, q) && t.versions[q].kind == t.versions[p].kind ==> q == p
  {
    forall q | IsActive(t.versions, q) && t.versions[q].kind == t.versions[p].kind
      ensures q == p
    {
      assert t.versions[q].version == t.versions[p].version;
    }
    var active := ActiveOf(t, t.versions[p].kind);
    assert p in active && forall q :: q in active ==> IsActive(t.versions, q);
    assert forall q :: q in active <==> q in {p};
  }

  /** Deactivating a kind is deactivating its one active row. */
  lemma DeactivatedIsOne(t: Tables, kind: Kind)
    requires Sound(t)
    ensures
      var active := Highest(t, ActiveOf(t, kind));
      Deactivated(t.versions, kind)
        == if active.Some? then t.versions[active.value := t.versions[active.value].(active := false)] else t.versions
  {
    var active := Highest(t, ActiveOf(t, kind));
    if active.Some? {
      ActiveIsOnly(t, active.value);
      var a, b := Deactivated(t.versions, kind), t.versions[active.value := t.versions[active.value].(active := false)];
      assert a.Keys == b.Keys;
      assert forall p :: p in a && p != active.value && t.versions[p].kind == kind ==> !IsActive(t.versions, p);
      assert forall p :: p in a ==> a[p] == b[p];
    } else {
      assert forall p :: p in t.versions && t.versions[p].active && t.versions[p].kind == kind ==>
        p in ActiveOf(t, kind);
    }
  }

  lemma ActiveIsMaximum(t: Tables, p: PolicyId)
    requires ActiveLeads(t.versions) && IsActive(t.versions, p)
    ensures t.versions[p].version == Maximum(t, t.versions[p].kind)
  {
  }

  lemma OnlyActiveIsProvided(t: Tables, p: PolicyId)
    requires IsActive(t.versions, p) && ActiveOf(t, t.versions[p].kind) == {p} && Stored(t, p).Some?
    ensures Provided(t, t.versions[p].kind) == Some((p, Stored(t, p).value))
  {
    var ready := set q | q in ActiveOf(t, t.versions[p].kind) && Stored(t, q).Some?;
    assert ready == {p};
    OnlyRow(t, ready, p);
  }

  /** The active policy is the only one of its kind, has its greatest version, and is what the provider returns. */
  lemma ActiveIsProvided(t: Tables, p: PolicyId)
    requires Sound(t) && IsActive(t.versions, p)
    ensures
      var kind := t.versions[p].kind;
      && t.versions[p].version == Maximum(t, kind)
      && (forall q :: IsActive(t.versions, q) && t.versions[q].kind == kind ==> q == p)
      && Stored(t, p).Some? && Provided(t, kind) == Some((p, Stored(t, p).value))
      && Highest(t, ActiveOf(t, kind)) == Some(p)
  {
    ActiveIsOnly(t, p);
    ActiveIsMaximum(t, p);
    OnlyActiveIsProvided(t, p);
    OnlyRow(t, ActiveOf(t, t.versions[p].kind), p);
  }

  lemma NothingProvided(t: Tables, kind: Kind)
    requires Sound(t) && !HasActive(t.versions, kind)
    ensures Provided(t, kind) == None && Maximum(t, kind) == 0 && Highest(t, ActiveOf(t, kind)) == None
  {
  }

  function Succeeded(v: Ledger, id: PolicyId, kind: Kind, version: nat): Ledger {
    Deactivated(v, kind)[id := Version(kind, version, true)]
  }

  lemma SuccessorLeads(v: Ledger, id: PolicyId, kind: Kind, version: nat)
    requires Distinct(v) && ActiveLeads(v) && id !in v
    requires forall p :: p in v && v[p].kind == kind ==> v[p].version < version
    ensures Distinct(Succeeded(v, id, kind, version)) && ActiveLeads(Succeeded(v, id, kind, version))
  {
    var v' := Succeeded(v, id, kind, version);
    assert forall p :: IsActive(v', p) && p != id ==> IsActive(v, p) && v[p].kind != kind;
  }

  lemma SuccessorCovers(v: Ledger, id: PolicyId, kind: Kind, version: nat)
    requires Covered(v) && id !in v
    ensures Covered(Succeeded(v, id, kind, version))
  {
    var v' := Succeeded(v, id, kind, version);
    assert IsActive(v', id);
    forall p | p in v'
      ensures HasActive(v', v'[p].kind)
    {
      if v'[p].kind != kind {
        var q :| q in v && IsActive(v, q) && v[q].kind == v[p].kind;
        assert IsActive(v', q);
      }
    }
  }

  lemma RecordKeepsSound(t: Tables, id: PolicyId, version: nat, config: Config)
    requires Sound(t) && id !in t.versions && version > Maximum(t, KindOf(config))
    ensures Sound(Recorded(t, id, version, config))
  {
    SuccessorLeads(t.versions, id, KindOf(config), version);
    SuccessorCovers(t.versions, id, KindOf(config), version);
    assert Recorded(t, id, version, config).versions == Succeeded(t.versions, id, KindOf(config), version);
    RecordKeepsComplete(t, id, version, config);
  }

  lemma RecordKeepsComplete(t: Tables, id: PolicyId, version: nat, config: Config)
    requires Complete(t) && id !in t.versions
    ensures Complete(Recorded(t, id, version, config))
  {
  }

  /** What a version configures is stored as it was given, and what others configure stays. */
  lemma RecordStores(t: Tables, id: PolicyId, version: nat, config: Config, other: PolicyId)
    requires Sound(t) && id !in t.versions
    ensures Stored(Recorded(t, id, version, config), id) == Some(config)
    ensures other in t.versions ==> Stored(Recorded(t, id, version, config), other) == Stored(t, other)
  {
    if config.Tax? {
      assert {} + config.methods == config.methods && {} + config.currencies == config.currencies;
    }
  }

  // ---------- two writers refine one current policy for each kind ----------

  datatype Step = Activate(input: Input, id: PolicyId) | Publish(config: Config, policyId: PolicyId, version: nat)

  function Next(t: Tables, step: Step): Tables {
    match step
    case Activate(input, id) => Activated(t, input, id).1
    case Publish(config, id, version) => Published(t, config, id, version).1
  }

  function Run(t: Tables, steps: seq<Step>): Tables
    decreases |steps|
  {
    if steps == [] then t else Run(Next(t, steps[0]), steps[1..])
  }

  /** All that matters of a kind: the policy in force and how far its versions go. */
  datatype Current = Current(policy: Option<(PolicyId, Config)>, version: nat)

  datatype View = View(discount: Current, tax: Current, used: set<PolicyId>)

  function Read(t: Tables, kind: Kind): Current {
    Current(Provided(t, kind), Maximum(t, kind))
  }

  function ViewOf(t: Tables): View {
    View(Read(t, DiscountKind), Read(t, TaxKind), t.versions.Keys)
  }

  predicate Matches(config: Config, input: Input) {
    match input
    case DiscountInput(maximum) => config == Discount(maximum)
    case TaxInput(rate, methods, currencies) =>
      config.Tax? && config.rate == rate && InSqlOrder(config.methods) == methods
        && InSqlOrder(config.currencies) == currencies
  }

  function Replaced(c: Current, free: bool, id: PolicyId, config: Config, version: nat): Current {
    if free && InRange(config) then Current(Some((id, config)), version) else c
  }

  /** One kind under one step: an activation that matches changes nothing, a publication must be ahead. */
  function Advanced(c: Current, step: Step, used: set<PolicyId>): Current {
    match step
    case Activate(input, id) =>
      if c.policy.Some? && Matches(c.policy.value.1, input) then c
      else Replaced(c, id !in used, id, ConfigOf(input), c.version + 1)
    case Publish(config, id, version) =>
      if version <= c.version then c else Replaced(c, id !in used, id, config, version)
  }

  function KindOfStep(step: Step): Kind {
    if step.Activate? then KindOf(ConfigOf(step.input)) else KindOf(step.config)
  }

  function NextView(v: View, step: Step): View {
    var c := Advanced(if KindOfStep(step).DiscountKind? then v.discount else v.tax, step, v.used);
    var before := if KindOfStep(step).DiscountKind? then v.discount else v.tax;
    var used := if c == before then v.used else v.used + {if step.Activate? then step.id else step.policyId};
    if KindOfStep(step).DiscountKind? then View(c, v.tax, used) else View(v.discount, c, used)
  }

  function RunView(v: View, steps: seq<Step>): View
    decreases |steps|
  {
    if steps == [] then v else RunView(NextView(v, steps[0]), steps[1..])
  }

  lemma SameIsMatch(t: Tables, input: Input)
    requires Sound(t)
    ensures
      var kind := KindOf(ConfigOf(input));
      var active := Highest(t, ActiveOf(t, kind));
      var provided := Provided(t, kind);
      active.Some? && SameAs(t, active.value, input) <==> provided.Some? && Matches(provided.value.1, input)
  {
  }

  lemma RecordedRead(t: Tables, id: PolicyId, version: nat, config: Config)
    requires Sound(t) && id !in t.versions && version > Maximum(t, KindOf(config))
    ensures Read(Recorded(t, id, version, config), KindOf(config)) == Current(Some((id, config)), version)
  {
    RecordKeepsSound(t, id, version, config);
    RecordStores(t, id, version, config, id);
    ActiveIsProvided(Recorded(t, id, version, config), id);
  }

  lemma OtherKindUnread(t: Tables, id: PolicyId, version: nat, config: Config, kind: Kind)
    requires Sound(t) && id !in t.versions && version > Maximum(t, KindOf(config)) && kind != KindOf(config)
    ensures Read(Recorded(t, id, version, config), kind) == Read(t, kind)
  {
    var t' := Recorded(t, id, version, config);
    RecordKeepsSound(t, id, version, config);
    if HasActive(t.versions, kind) {
      var p :| p in t.versions && IsActive(t.versions, p) && t.versions[p].kind == kind;
      RecordStores(t, id, version, config, p);
      assert t'.versions[p] == t.versions[p];
      ActiveIsProvided(t, p);
      ActiveIsProvided(t', p);
    } else {
      NothingProvided(t, kind);
      assert forall p :: p in t'.versions && p != id ==>
        p in t.versions && (IsActive(t'.versions, p) ==> IsActive(t.versions, p));
      NothingProvided(t', kind);
    }
  }

  /** The view with one kind's policy replaced. */
  function Taken(v: View, id: PolicyId, version: nat, config: Config): View {
    var c := Current(Some((id, config)), version);
    if config.Discount? then View(c, v.tax, v.used + {id}) else View(v.discount, c, v.used + {id})
  }

  lemma RecordedView(t: Tables, id: PolicyId, version: nat, config: Config)
    requires Sound(t) && id !in t.versions && version > Maximum(t, KindOf(config))
    ensures Sound(Recorded(t, id, version, config))
    ensures ViewOf(Recorded(t, id, version, config)) == Taken(ViewOf(t), id, version, config)
  {
    RecordKeepsSound(t, id, version, config);
    RecordedRead(t, id, version, config);
    OtherKindUnread(t, id, version, config, if config.Discount? then TaxKind else DiscountKind);
    RecordedKeys(t, id, version, config);
    ReadsMakeView(t, Recorded(t, id, version, config), id, version, config);
  }

  lemma RecordedKeys(t: Tables, id: PolicyId, version: nat, config: Config)
    ensures Recorded(t, id, version, config).versions.Keys == t.versions.Keys + {id}
  {
  }

  lemma ReadsMakeView(t: Tables, t': Tables, id: PolicyId, version: nat, config: Config)
    requires Read(t', KindOf(config)) == Current(Some((id, config)), version)
    requires
      var other := if config.Discount? then TaxKind else DiscountKind;
      Read(t', other) == Read(t, other)
    requires t'.versions.Keys == t.versions.Keys + {id}
    ensures ViewOf(t') == Taken(ViewOf(t), id, version, config)
  {
  }

  /** The part of the view a step looks at. */
  function Before(v: View, step: Step): Current {
    if KindOfStep(step).DiscountKind? then v.discount else v.tax
  }

  lemma ActivatedIs(t: Tables, input: Input, id: PolicyId)
    requires Sound(t)
    ensures
      var c := Read(t, KindOf(ConfigOf(input)));
      if Activates(c, t.versions.Keys, input, id)
      then Activated(t, input, id) == (Created(id, c.version + 1), Recorded(t, id, c.version + 1, ConfigOf(input)))
      else !Activated(t, input, id).0.Created? && Activated(t, input, id).1 == t
  {
    SameIsMatch(t, input);
  }

  lemma ActivateNext(v: View, v': View, c: Current, input: Input, id: PolicyId)
    requires c == Before(v, Activate(input, id))
    requires v' == if Activates(c, v.used, input, id) then Taken(v, id, c.version + 1, ConfigOf(input)) else v
    ensures v' == NextView(v, Activate(input, id))
  {
  }

  lemma PublishNext(v: View, v': View, config: Config, id: PolicyId, version: nat)
    requires
      v' == if Before(v, Publish(config, id, version)).version < version && id !in v.used && InRange(config)
            then Taken(v, id, version, config) else v
    ensures v' == NextView(v, Publish(config, id, version))
  {
  }

  lemma BeforeIsRead(t: Tables, step: Step)
    ensures Before(ViewOf(t), step) == Read(t, KindOfStep(step))
  {
  }

  /** Whether an activation makes a version. */
  predicate Activates(c: Current, used: set<PolicyId>, input: Input, id: PolicyId) {
    !(c.policy.Some? && Matches(c.policy.value.1, input)) && id !in used && InRange(ConfigOf(input))
  }

  lemma CreatedView(t: Tables, c: Current, input: Input, id: PolicyId)
    requires Sound(t) && c == Read(t, KindOf(ConfigOf(input))) && Activates(c, t.versions.Keys, input, id)
    ensures Sound(Recorded(t, id, c.version + 1, ConfigOf(input)))
    ensures ViewOf(Recorded(t, id, c.version + 1, ConfigOf(input))) == NextView(ViewOf(t), Activate(input, id))
  {
    RecordedView(t, id, c.version + 1, ConfigOf(input));
    BeforeIsRead(t, Activate(input, id));
    ActivateNext(ViewOf(t), Taken(ViewOf(t), id, c.version + 1, ConfigOf(input)), c, input, id);
  }

  lemma KeptView(t: Tables, c: Current, input: Input, id: PolicyId)
    requires c == Read(t, KindOf(ConfigOf(input))) && !Activates(c, t.versions.Keys, input, id)
    ensures ViewOf(t) == NextView(ViewOf(t), Activate(input, id))
  {
  }

  lemma ActivateRefines(t: Tables, t': Tables, c: Current, input: Input, id: PolicyId)
    requires Sound(t) && c == Read(t, KindOf(ConfigOf(input)))
    requires t' == if Activates(c, t.versions.Keys, input, id)
                   then Recorded(t, id, c.version + 1, ConfigOf(input)) else t
    ensures Sound(t') && ViewOf(t') == NextView(ViewOf(t), Activate(input, id))
  {
    if Activates(c, t.versions.Keys, input, id) {
      CreatedView(t, c, input, id);
    } else {
      KeptView(t, c, input, id);
    }
  }

  lemma PublishRefines(t: Tables, config: Config, id: PolicyId, version: nat)
    requires Sound(t)
    ensures
      var t' := Published(t, config, id, version).1;
      Sound(t') && ViewOf(t') == NextView(ViewOf(t), Publish(config, id, version))
  {
    var t' := Published(t, config, id, version).1;
    BeforeIsRead(t, Publish(config, id, version));
    if Maximum(t, KindOf(config)) < version && id !in t.versions && InRange(config) {
      RecordedView(t, id, version, config);
    }
    PublishNext(ViewOf(t), ViewOf(t'), config, id, version);
  }

  lemma NextRefines(t: Tables, step: Step)
    requires Sound(t)
    ensures Sound(Next(t, step)) && ViewOf(Next(t, step)) == NextView(ViewOf(t), step)
  {
    match step
    case Activate(input, id) =>
      ActivatedIs(t, input, id);
      ActivateRefines(t, Next(t, step), Read(t, KindOf(ConfigOf(input))), input, id);
    case Publish(config, id, version) => PublishRefines(t, config, id, version);
  }

  /** Whatever the interleaving of the two writers, the tables say what the one current policy of each kind says. */
  lemma {:induction false} RunRefines(t: Tables, steps: seq<Step>)
    requires Sound(t)
    ensures Sound(Run(t, steps)) && ViewOf(Run(t, steps)) == RunView(ViewOf(t), steps)
    decreases |steps|
  {
    if steps != [] {
      NextRefines(t, steps[0]);
      RunRefines(Next(t, steps[0]), steps[1..]);
    }
  }

  lemma MatchIsConfig(config: Config, input: Input)
    requires Matches(config, input)
    ensures config == ConfigOf(input)
  {
  }

  /** After an activation that was not refused the provider returns exactly what was asked for. */
  lemma ActivationIsProvided(steps: seq<Step>, input: Input, id: PolicyId)
    requires !Activated(Run(EMPTY, steps), input, id).0.Rejected?
    ensures
      var provided := Provided(Activated(Run(EMPTY, steps), input, id).1, KindOf(ConfigOf(input)));
      provided.Some? && provided.value.1 == ConfigOf(input)
  {
    RunRefines(EMPTY, steps);
    ActivatedIsProvided(Run(EMPTY, steps), input, id);
  }

  lemma ActivatedIsProvided(t: Tables, input: Input, id: PolicyId)
    requires Sound(t) && !Activated(t, input, id).0.Rejected?
    ensures
      var provided := Provided(Activated(t, input, id).1, KindOf(ConfigOf(input)));
      provided.Some? && provided.value.1 == ConfigOf(input)
  {
    var kind := KindOf(ConfigOf(input));
    ActivatedIs(t, input, id);
    if Activated(t, input, id).0.Created? {
      RecordedRead(t, id, Maximum(t, kind) + 1, ConfigOf(input));
    } else {
      SameIsMatch(t, input);
      MatchIsConfig(Provided(t, kind).value.1, input);
    }
  }

  /** Asking again for the policy in force makes no version exactly when its codes come in the order SQL sorts them. */
  lemma ReactivationIff(steps: seq<Step>, input: Input, id: PolicyId)
    requires Provided(Run(EMPTY, steps), KindOf(ConfigOf(input))).Some?
    requires Provided(Run(EMPTY, steps), KindOf(ConfigOf(input))).value.1 == ConfigOf(input)
    ensures
      var config := ConfigOf(input);
      var inOrder := input.DiscountInput?
        || (InSqlOrder(config.methods) == input.methods && InSqlOrder(config.currencies) == input.currencies);
      Activated(Run(EMPTY, steps), input, id).0.Unchanged? <==> inOrder
  {
    RunRefines(EMPTY, steps);
    SameIsMatch(Run(EMPTY, steps), input);
  }

  /** Codes a locale sorts as 2, 1: asking twice for them makes a second version of one configuration. */
  lemma ReactivationMakesVersion(first: PolicyId, again: PolicyId)
    requires first != again
    ensures
      var input := TaxInput(0, [2, 1], []);
      var t := Run(EMPTY, [Activate(input, first)]);
      && Provided(t, TaxKind).Some? && Provided(t, TaxKind).value.1 == ConfigOf(input)
      && Activated(t, input, again).0.Created?
  {
    var input := TaxInput(0, [2, 1], []);
    var steps := [Activate(input, first)];
    var t := Run(EMPTY, steps);
    assert Run(EMPTY, []) == EMPTY && steps[1..] == [];
    assert Activated(EMPTY, input, first) == (Created(first, 1), Recorded(EMPTY, first, 1, ConfigOf(input))) by {
      assert ActiveOf(EMPTY, TaxKind) == {} && OfKind(EMPTY, TaxKind) == {};
    }
    assert t == Run(Next(EMPTY, steps[0]), []) == Activated(EMPTY, input, first).1;
    ActivationIsProvided([], input, first);
    ReactivationIff(steps, input, again);
    var sorted := InSqlOrder(ConfigOf(input).methods);
    assert |sorted| == 2 ==> sorted[0] < sorted[1];
    assert again !in t.versions;
  }
}
