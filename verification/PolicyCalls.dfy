/** What the two writers of policies answer and write, said of the rows alone. */
module PolicyCalls {
  import opened Wrappers
  import opened Selection
  import opened Policies

  /** The percentage of a policy, in basis points. */
  function PointsOf(config: Config): int {
    match config
    case Discount(maximum) => maximum
    case Tax(rate, _, _) => rate
  }

  /** A policy that can be stored under an id: the id is new and the percentage between zero and a hundred. */
  predicate Storable(t: Tables, id: PolicyId, config: Config) {
    id !in t.versions && PointsOf(config) >= 0 && PointsOf(config) <= 10_000
  }

  /** The greatest version of a kind, or zero. */
  ghost predicate IsLast(v: Ledger, kind: Kind, last: nat) {
    && (forall p :: p in v && v[p].kind == kind ==> v[p].version <= last)
    && (last == 0 || exists p :: p in v && v[p].kind == kind && v[p].version == last)
  }

  /** A version that is active, the others of its kind no longer so, and nothing else changed. */
  ghost predicate Succeeds(v: Ledger, v': Ledger, id: PolicyId, kind: Kind, version: nat) {
    && v'.Keys == v.Keys + {id}
    && v'[id] == Version(kind := kind, version := version, active := true)
    && (forall p :: p in v && p != id && v[p].kind == kind ==>
          v'[p] == Version(kind := kind, version := v[p].version, active := false))
    && (forall p :: p in v && p != id && v[p].kind != kind ==> v'[p] == v[p])
  }

  /** The codes of one policy are `more`, and those of the others what they were. */
  ghost predicate CodesWritten(codes: Codes, codes': Codes, id: PolicyId, more: set<Code>) {
    && (id in codes' ==> codes'[id] == more) && (id !in codes' ==> more == {})
    && forall p :: p != id ==> (p in codes' <==> p in codes) && (p in codes ==> codes'[p] == codes[p])
  }

  /** The rows of one policy's configuration, and no others. */
  ghost predicate ConfigWritten(t: Tables, t': Tables, id: PolicyId, config: Config) {
    match config
    case Discount(maximum) =>
      && t'.discounts == t.discounts[id := maximum]
      && t'.rates == t.rates && t'.methods == t.methods && t'.currencies == t.currencies
    case Tax(rate, methods, currencies) =>
      && t'.discounts == t.discounts && t'.rates == t.rates[id := rate]
      && CodesWritten(t.methods, t'.methods, id, methods) && CodesWritten(t.currencies, t'.currencies, id, currencies)
  }

  lemma LinkedIs(codes: Codes, id: PolicyId, more: set<Code>)
    requires id !in codes
    ensures CodesWritten(codes, Linked(codes, id, more), id, more)
  {
    assert CodesOf(codes, id) + more == more;
  }

  lemma ConfiguredIs(t: Tables, id: PolicyId, config: Config)
    requires id !in t.methods && id !in t.currencies
    ensures
      var t' := Configured(t, id, config);
      t'.versions == t.versions && ConfigWritten(t, t', id, config)
  {
    if config.Tax? {
      LinkedIs(t.methods, id, config.methods);
      LinkedIs(t.currencies, id, config.currencies);
    }
  }

  lemma RecordedIs(t: Tables, id: PolicyId, version: nat, config: Config)
    requires Complete(t) && id !in t.versions
    ensures
      var t' := Recorded(t, id, version, config);
      Succeeds(t.versions, t'.versions, id, KindOf(config), version) && ConfigWritten(t, t', id, config)
  {
    var kind := KindOf(config);
    var base := t.(versions := Deactivated(t.versions, kind)[id := Version(kind, version, true)]);
    ConfiguredIs(base, id, config);
    ConfigWrittenFrom(t, base, Recorded(t, id, version, config), id, config);
  }

  lemma ConfigWrittenFrom(t: Tables, base: Tables, t': Tables, id: PolicyId, config: Config)
    requires base == t.(versions := base.versions) && ConfigWritten(base, t', id, config)
    ensures ConfigWritten(t, t', id, config)
  {
  }

  lemma MaximumIs(t: Tables, kind: Kind, last: nat)
    ensures Maximum(t, kind) == last <==> IsLast(t.versions, kind, last)
  {
  }

  function KindIs(config: Config): Kind {
    match config
    case Discount(_) => DiscountKind
    case Tax(_, _, _) => TaxKind
  }

  /**
   * A publication is stale unless it is above every version of its kind, refused unless it can be stored, and
   * otherwise becomes the active version with its configuration.
   */
  lemma PublishedIs(t: Tables, config: Config, id: PolicyId, version: nat)
    requires Complete(t)
    ensures
      var kind, (answer, t') := KindIs(config), Published(t, config, id, version);
      var ahead := version > 0 && forall p :: p in t.versions && t.versions[p].kind == kind ==>
        t.versions[p].version < version;
      && (answer == Stale <==> !ahead)
      && (answer == Refused <==> ahead && !Storable(t, id, config))
      && (answer == Applied <==> ahead && Storable(t, id, config))
      && (answer != Applied ==> t' == t)
      && (answer == Applied ==>
            Succeeds(t.versions, t'.versions, id, kind, version) && ConfigWritten(t, t', id, config))
  {
    var kind := KindIs(config);
    var last := Maximum(t, kind);
    MaximumIs(t, kind, last);
    if Published(t, config, id, version).0 == Applied {
      RecordedIs(t, id, version, config);
    }
  }

  // ---------- activations ----------

  /** The codes are those of the set, each once and in increasing order. */
  ghost predicate Lists(codes: seq<Code>, stored: set<Code>) {
    && (forall i, j :: 0 <= i < j < |codes| ==> codes[i] < codes[j])
    && (forall c :: c in codes <==> c in stored)
  }

  lemma {:induction false} OneListing(a: seq<Code>, b: seq<Code>, stored: set<Code>)
    requires Lists(a, stored) && Lists(b, stored)
    ensures a == b
    decreases |a|
  {
    assert a == [] || a[0] in a;
    assert b == [] || b[0] in b;
    if a != [] {
      assert a[0] in b && b[0] in a;
      ListsRest(a, stored);
      ListsRest(b, stored);
      OneListing(a[1..], b[1..], stored - {a[0]});
    }
  }

  lemma ListsRest(a: seq<Code>, stored: set<Code>)
    requires Lists(a, stored) && a != []
    ensures Lists(a[1..], stored - {a[0]})
  {
    assert forall c :: c in a <==> c == a[0] || c in a[1..];
    assert a[0] !in a[1..];
  }

  lemma SqlOrderIff(codes: seq<Code>, stored: set<Code>)
    ensures InSqlOrder(stored) == codes <==> Lists(codes, stored)
  {
    if Lists(codes, stored) {
      OneListing(InSqlOrder(stored), codes, stored);
    }
  }

  /** The rows of an active policy say what is asked for, its codes listed in increasing order. */
  ghost predicate Says(t: Tables, id: PolicyId, input: Input) {
    && id in t.versions && t.versions[id].active
    && match input
       case DiscountInput(maximum) =>
         t.versions[id].kind == DiscountKind && id in t.discounts && t.discounts[id] == maximum
       case TaxInput(rate, methods, currencies) =>
         && t.versions[id].kind == TaxKind && id in t.rates && t.rates[id] == rate
         && Lists(methods, if id in t.methods then t.methods[id] else {})
         && Lists(currencies, if id in t.currencies then t.currencies[id] else {})
  }

  lemma SaysIff(t: Tables, id: PolicyId, input: Input)
    ensures Says(t, id, input) <==> id in ActiveOf(t, KindOf(ConfigOf(input))) && SameAs(t, id, input)
  {
    if input.TaxInput? {
      SqlOrderIff(input.methods, CodesOf(t.methods, id));
      SqlOrderIff(input.currencies, CodesOf(t.currencies, id));
    }
  }

  lemma ActiveSays(t: Tables, input: Input)
    requires Sound(t)
    ensures
      var active := Highest(t, ActiveOf(t, KindOf(ConfigOf(input))));
      && (active.Some? && SameAs(t, active.value, input) ==> Says(t, active.value, input))
      && (forall p :: Says(t, p, input) ==> active == Some(p) && SameAs(t, p, input))
  {
    var active := Highest(t, ActiveOf(t, KindOf(ConfigOf(input))));
    if active.Some? {
      SaysIff(t, active.value, input);
    }
    forall p | Says(t, p, input)
      ensures active == Some(p) && SameAs(t, p, input)
    {
      SaysIff(t, p, input);
      ActiveIsOnly(t, p);
    }
  }

  /** The configuration an activation asks for, whatever the order and repetition of its codes. */
  ghost predicate Asks(input: Input, config: Config) {
    match input
    case DiscountInput(maximum) => config == Discount(maximum)
    case TaxInput(rate, methods, currencies) =>
      && config.Tax? && config.rate == rate
      && (forall c :: c in config.methods <==> c in methods)
      && (forall c :: c in config.currencies <==> c in currencies)
  }

  lemma SameCodes(asked: set<Code>, codes: seq<Code>)
    requires forall c :: c in asked <==> c in codes
    ensures asked == set c | c in codes
  {
    var listed := set c | c in codes;
    assert forall c :: c in listed ==> c in asked;
    assert forall c :: c in asked ==> c in listed;
  }

  lemma AsksIs(input: Input, config: Config)
    requires Asks(input, config)
    ensures config == ConfigOf(input) && KindOf(config) == KindIs(config)
  {
    match input
    case DiscountInput(_) =>
    case TaxInput(rate, methods, currencies) =>
      SameCodes(config.methods, methods);
      SameCodes(config.currencies, currencies);
  }

  /** The answer, told from the active row. */
  lemma AnswerIs(t: Tables, input: Input, id: PolicyId)
    ensures
      var config := ConfigOf(input);
      var active, last := Highest(t, ActiveOf(t, KindOf(config))), Maximum(t, KindOf(config));
      Activated(t, input, id)
        == (if active.Some? && SameAs(t, active.value, input)
            then (Unchanged(active.value, t.versions[active.value].version), t)
            else if !Storable(t, id, config) then (Rejected, t)
            else (Created(id, last + 1), Recorded(t, id, last + 1, config)))
  {
  }

  /**
   * An activation changes nothing when the active policy says what is asked for, its codes in increasing order. Any
   * other is rejected unless it can be stored, and then becomes the active version, one above the greatest.
   */
  lemma ActivatedIs(t: Tables, input: Input, id: PolicyId, config: Config)
    requires Sound(t) && Asks(input, config)
    ensures
      var kind, (answer, t') := KindIs(config), Activated(t, input, id);
      var says := exists p :: Says(t, p, input);
      && (answer.Unchanged? <==> says)
      && (answer.Unchanged? ==> Says(t, answer.id, input) && answer.version == t.versions[answer.id].version)
      && (answer.Rejected? <==> !says && !Storable(t, id, config))
      && (answer.Created? <==> !says && Storable(t, id, config))
      && (!answer.Created? ==> t' == t)
      && (answer.Created? ==>
            && answer.newId == id && answer.newVersion > 0 && IsLast(t.versions, kind, answer.newVersion - 1)
            && Succeeds(t.versions, t'.versions, id, kind, answer.newVersion) && ConfigWritten(t, t', id, config))
  {
    AsksIs(input, config);
    ActiveSays(t, input);
    AnswerIs(t, input, id);
    var kind := KindIs(config);
    MaximumIs(t, kind, Maximum(t, kind));
    if Storable(t, id, config) {
      RecordedIs(t, id, Maximum(t, kind) + 1, config);
    }
  }
}
