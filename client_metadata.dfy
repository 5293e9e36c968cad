/**
 * The `metadata` object `updateClientMetadata` of
 * src/painel-clients/painel-clients.service.ts derives for a client with one
 * SQL query: a few fixed keys from the client row, one `false` flag per API
 * name, and the cumulative "activation rules" that list, for each execution
 * order of the client's agents, every API name reachable up to that order.
 * The query is declarative, so the model is a function of the tables.
 */
module ClientMetadata {
  import opened Wrappers
  import opened JsValues
  import opened PanelTables

  // ---------------------------------------------------------------------------
  // The `api_base` join

  /** A row of `api_base`: the execution order of an agent of the client and the name of one of its APIs. */
  datatype BaseRow = BaseRow(order: Option<int>, name: string)

  /** The named APIs of one agent, paired with the agent's execution order. */
  function NamedApisOf(agent: Agent, apis: seq<Api>): (r: seq<BaseRow>)
    ensures forall b :: b in r ==> b.order == agent.executionOrder
    ensures forall b :: b in r <==> b.order == agent.executionOrder && exists p :: p in apis && p.agentId == agent.id && p.name == Some(b.name)
  {
    if apis == [] then []
    else
      var p := apis[|apis| - 1];
      var r := NamedApisOf(agent, apis[..|apis| - 1]) + (if p.agentId == agent.id && p.name.Some? then [BaseRow(agent.executionOrder, p.name.value)] else []);
      assert forall q :: q in apis <==> q in apis[..|apis| - 1] || q == p by {
        assert apis == apis[..|apis| - 1] + [p];
      }
      r
  }

  /**
   * `painel_agents LEFT JOIN painel_apis ... WHERE client_id = c AND name IS NOT NULL`:
   * the join keeps only agents of the client that have a named API.
   */
  function ApiBase(agents: seq<Agent>, apis: seq<Api>, clientId: Id): (r: seq<BaseRow>)
  {
    if agents == [] then []
    else
      var a := agents[|agents| - 1];
      ApiBase(agents[..|agents| - 1], apis, clientId) + (if a.clientId == clientId then NamedApisOf(a, apis) else [])
  }

  /** A row is in `api_base` exactly when an agent of the client has an API of that name. */
  lemma {:induction false} ApiBaseMembers(agents: seq<Agent>, apis: seq<Api>, clientId: Id, b: BaseRow)
    ensures b in ApiBase(agents, apis, clientId) <==>
      exists a, p :: a in agents && p in apis && a.clientId == clientId && p.agentId == a.id
        && p.name == Some(b.name) && b.order == a.executionOrder
    decreases |agents|
  {
    if agents != [] {
      var a := agents[|agents| - 1];
      var init := agents[..|agents| - 1];
      ApiBaseMembers(init, apis, clientId, b);
      assert agents == init + [a];
      assert forall x :: x in agents <==> x in init || x == a;
    }
  }

  // ---------------------------------------------------------------------------
  // Code-point order and sorted, distinct name lists

  /** `a` sorts strictly before `b` in code-point order. */
  predicate Before(a: string, b: string)
    decreases |a|
  {
    if a == [] then b != []
    else b != [] && (a[0] < b[0] || (a[0] == b[0] && Before(a[1..], b[1..])))
  }

  lemma {:induction false} BeforeIrreflexive(a: string)
    ensures !Before(a, a)
    decreases |a|
  {
    if a != [] {
      BeforeIrreflexive(a[1..]);
    }
  }

  lemma {:induction false} BeforeTransitive(a: string, b: string, c: string)
    requires Before(a, b) && Before(b, c)
    ensures Before(a, c)
    decreases |a|
  {
    if a != [] && a[0] == b[0] && b[0] == c[0] {
      BeforeTransitive(a[1..], b[1..], c[1..]);
    }
  }

  lemma {:induction false} BeforeTotal(a: string, b: string)
    requires a != b
    ensures Before(a, b) || Before(b, a)
    decreases |a|
  {
    if a != [] && b != [] && a[0] == b[0] {
      assert a == [a[0]] + a[1..] && b == [b[0]] + b[1..];
      BeforeTotal(a[1..], b[1..]);
    }
  }

  lemma BeforeAsymmetric(a: string, b: string)
    requires Before(a, b)
    ensures !Before(b, a)
  {
    if Before(b, a) {
      BeforeTransitive(a, b, a);
      BeforeIrreflexive(a);
    }
  }

  /** Sorted and without repetitions: `jsonb_agg(DISTINCT name ORDER BY name)`. */
  predicate StrictlySorted(s: seq<string>) {
    forall i, j :: 0 <= i < j < |s| ==> Before(s[i], s[j])
  }

  /** Puts `x` in its place in a sorted list, unless it is there already. */
  function Insert(x: string, s: seq<string>): seq<string> {
    if s == [] then [x]
    else if x == s[0] then s
    else if Before(x, s[0]) then [x] + s
    else [s[0]] + Insert(x, s[1..])
  }

  lemma SortedCons(h: string, t: seq<string>)
    requires StrictlySorted(t)
    requires forall y :: y in t ==> Before(h, y)
    ensures StrictlySorted([h] + t)
  {
    var s := [h] + t;
    forall i, j | 0 <= i < j < |s|
      ensures Before(s[i], s[j])
    {
      assert s[j] == t[j - 1];
      if i > 0 {
        assert s[i] == t[i - 1];
      }
    }
  }

  /** Insertion keeps the list sorted and adds exactly `x`. */
  lemma {:induction false} InsertSpec(x: string, s: seq<string>)
    requires StrictlySorted(s)
    ensures StrictlySorted(Insert(x, s))
    ensures forall y :: y in Insert(x, s) <==> y == x || y in s
  {
    if s == [] {
    } else if x == s[0] {
    } else if Before(x, s[0]) {
      forall y | y in s
        ensures Before(x, y)
      {
        if y != s[0] {
          var j :| 0 <= j < |s| && s[j] == y;
          BeforeTransitive(x, s[0], y);
        }
      }
      SortedCons(x, s);
    } else {
      var t := s[1..];
      assert StrictlySorted(t) by {
        forall i, j | 0 <= i < j < |t|
          ensures Before(t[i], t[j])
        {
          assert t[i] == s[i + 1] && t[j] == s[j + 1];
        }
      }
      InsertSpec(x, t);
      BeforeTotal(x, s[0]);
      forall y | y in Insert(x, t)
        ensures Before(s[0], y)
      {
        if y != x {
          var j :| 0 <= j < |t| && t[j] == y;
          assert s[j + 1] == y;
        }
      }
      SortedCons(s[0], Insert(x, t));
      assert s == [s[0]] + t;
    }
  }

  /** The distinct names of `names`, in code-point order. */
  function SortNames(names: seq<string>): seq<string> {
    if names == [] then []
    else Insert(names[|names| - 1], SortNames(names[..|names| - 1]))
  }

  /** Sorting gives a strictly sorted list of exactly the names given. */
  lemma {:induction false} SortNamesSpec(names: seq<string>)
    ensures StrictlySorted(SortNames(names))
    ensures forall y :: y in SortNames(names) <==> y in names
  {
    if names != [] {
      var init := names[..|names| - 1];
      SortNamesSpec(init);
      InsertSpec(names[|names| - 1], SortNames(init));
      assert names == init + [names[|names| - 1]];
    }
  }

  /** The head of a strictly sorted list comes before every other element. */
  lemma HeadBefore(s: seq<string>, y: string)
    requires StrictlySorted(s) && y in s && y != s[0]
    ensures Before(s[0], y)
  {
    var j :| 0 <= j < |s| && s[j] == y;
  }

  lemma TailSorted(s: seq<string>)
    requires StrictlySorted(s) && s != []
    ensures StrictlySorted(s[1..])
    ensures forall y :: y in s[1..] <==> y in s && y != s[0]
  {
    forall i, j | 0 <= i < j < |s[1..]|
      ensures Before(s[1..][i], s[1..][j])
    {
      assert s[1..][i] == s[i + 1] && s[1..][j] == s[j + 1];
    }
    forall y | y in s[1..]
      ensures y != s[0]
    {
      var i :| 0 <= i < |s[1..]| && s[1..][i] == y;
      assert Before(s[0], s[i + 1]);
      BeforeIrreflexive(y);
    }
    assert s == [s[0]] + s[1..];
  }

  /** A strictly sorted list is determined by its elements. */
  lemma {:induction false} StrictlySortedUnique(s: seq<string>, t: seq<string>)
    requires StrictlySorted(s) && StrictlySorted(t)
    requires forall y :: y in s <==> y in t
    ensures s == t
    decreases |s|
  {
    assert |t| > 0 ==> t[0] in t;
    if s != [] {
      assert s[0] in t;
      assert t[0] in s;
      if s[0] != t[0] {
        HeadBefore(t, s[0]);
        HeadBefore(s, t[0]);
        BeforeAsymmetric(s[0], t[0]);
        assert false;
      }
      TailSorted(s);
      TailSorted(t);
      StrictlySortedUnique(s[1..], t[1..]);
      assert s == [s[0]] + s[1..] && t == [t[0]] + t[1..];
    }
  }

  // ---------------------------------------------------------------------------
  // Steps, cumulative rules and flags

  /** The non-null execution orders of `api_base` (the `api_steps` that join with something). */
  function Orders(base: seq<BaseRow>): (r: seq<int>)
    ensures forall k :: k in r <==> exists b :: b in base && b.order == Some(k)
  {
    if base == [] then []
    else
      var b := base[|base| - 1];
      assert base == base[..|base| - 1] + [b];
      Orders(base[..|base| - 1]) + (if b.order.Some? then [b.order.value] else [])
  }

  /** The names of the rows whose order is at most `k` (the join `b.execution_order <= s.execution_order`). */
  function NamesUpTo(base: seq<BaseRow>, k: int): (r: seq<string>)
    ensures forall n :: n in r <==> exists b :: b in base && b.order.Some? && b.order.value <= k && b.name == n
  {
    if base == [] then []
    else
      var b := base[|base| - 1];
      assert base == base[..|base| - 1] + [b];
      NamesUpTo(base[..|base| - 1], k) + (if b.order.Some? && b.order.value <= k then [b.name] else [])
  }

  /** Every name of `api_base`. */
  function AllNames(base: seq<BaseRow>): (r: seq<string>)
    ensures forall n :: n in r <==> exists b :: b in base && b.name == n
  {
    if base == [] then []
    else
      var b := base[|base| - 1];
      assert base == base[..|base| - 1] + [b];
      AllNames(base[..|base| - 1]) + [b.name]
  }

  /** `regras.activation_rules`: per execution order, the sorted distinct names up to it. */
  function ActivationRules(base: seq<BaseRow>): map<int, seq<string>> {
    map k | k in Orders(base) :: SortNames(NamesUpTo(base, k))
  }

  /** `api_flags.api_booleans`: every name mapped to `false`. */
  function ApiFlags(base: seq<BaseRow>): map<string, bool> {
    map n | n in AllNames(base) :: false
  }

  /** There is a rule for an execution order exactly when an agent of that order has a named API. */
  lemma RulesDomain(base: seq<BaseRow>, k: int)
    ensures k in ActivationRules(base) <==> exists b :: b in base && b.order == Some(k)
  {
  }

  /**
   * The rule of order `k` lists, sorted and once each, exactly the names of
   * the APIs whose agent's order is at most `k`; and it is the only list that does.
   */
  lemma RuleContents(base: seq<BaseRow>, k: int)
    requires k in ActivationRules(base)
    ensures StrictlySorted(ActivationRules(base)[k])
    ensures forall n :: n in ActivationRules(base)[k] <==>
      exists b :: b in base && b.order.Some? && b.order.value <= k && b.name == n
    ensures forall s :: StrictlySorted(s) && (forall n :: n in s <==> n in NamesUpTo(base, k)) ==> s == ActivationRules(base)[k]
  {
    SortNamesSpec(NamesUpTo(base, k));
    forall s | StrictlySorted(s) && (forall n :: n in s <==> n in NamesUpTo(base, k))
      ensures s == ActivationRules(base)[k]
    {
      StrictlySortedUnique(s, ActivationRules(base)[k]);
    }
  }

  /** The rules are cumulative: a later order's rule contains every name of an earlier one. */
  lemma RulesMonotone(base: seq<BaseRow>, k1: int, k2: int)
    requires k1 in ActivationRules(base) && k2 in ActivationRules(base) && k1 <= k2
    ensures forall n :: n in ActivationRules(base)[k1] ==> n in ActivationRules(base)[k2]
  {
    SortNamesSpec(NamesUpTo(base, k1));
    SortNamesSpec(NamesUpTo(base, k2));
  }

  /** Every name of the rows of order `k` is in the rule of `k`, so no rule is empty. */
  lemma RuleHasOwnStep(base: seq<BaseRow>, b: BaseRow)
    requires b in base && b.order.Some?
    ensures b.order.value in ActivationRules(base)
    ensures b.name in ActivationRules(base)[b.order.value]
    ensures |ActivationRules(base)[b.order.value]| > 0
  {
    SortNamesSpec(NamesUpTo(base, b.order.value));
  }

  /** The flags hold every name of `api_base`, and only those, each `false`. */
  lemma FlagsSpec(base: seq<BaseRow>, n: string)
    ensures n in ApiFlags(base) <==> exists b :: b in base && b.name == n
    ensures n in ApiFlags(base) ==> !ApiFlags(base)[n]
  {
  }

  // ---------------------------------------------------------------------------
  // The metadata object

  function TextValue(v: Option<string>): MetaValue {
    if v.Some? then MText(v.value) else MNull
  }

  /** `LOWER(a.strategy)`, null when the column is null. */
  function StrategyValue(strategy: Option<string>): MetaValue {
    if strategy.Some? then MText(Lower(strategy.value)) else MNull
  }

  /** The fixed keys of `jsonb_build_object(...)`. */
  function BaseMetadata(c: Client): Metadata {
    map[
      "sessionId" := MNull,
      "phone_number" := TextValue(c.phoneNumber),
      "company_name" := TextValue(c.companyName),
      "strategy" := StrategyValue(c.strategy),
      "tentativas" := MInt(0),
      "ofertas_disponiveis" := MNull]
  }

  function FlagValues(base: seq<BaseRow>): Metadata {
    map n | n in ApiFlags(base) :: MBool(ApiFlags(base)[n])
  }

  /**
   * `COALESCE(jsonb_build_object('activation_rules', r.activation_rules), '{}')`:
   * without a rule the left join gives a null, which the object keeps.
   */
  function RulesValue(base: seq<BaseRow>): MetaValue {
    if Orders(base) == [] then MNull else MRules(ActivationRules(base))
  }

  /** The `result` column: the three objects joined with `||`, where a later key wins. */
  function MetadataFor(c: Client, base: seq<BaseRow>): Metadata {
    BaseMetadata(c) + FlagValues(base) + map["activation_rules" := RulesValue(base)]
  }

  /** The base keys of the metadata. */
  const FixedKeys: set<string> := {"sessionId", "phone_number", "company_name", "strategy", "tentativas", "ofertas_disponiveis"}

  /** The metadata has the fixed keys, one key per API name and `activation_rules`, and nothing else. */
  lemma MetadataKeys(c: Client, base: seq<BaseRow>)
    ensures forall k :: k in MetadataFor(c, base) <==> k in FixedKeys || k in AllNames(base) || k == "activation_rules"
  {
  }

  /** `activation_rules` is always there, and is null exactly when no API'd agent has an order. */
  lemma MetadataRules(c: Client, base: seq<BaseRow>)
    ensures "activation_rules" in MetadataFor(c, base)
    ensures MetadataFor(c, base)["activation_rules"] == RulesValue(base)
    ensures RulesValue(base) == MNull <==> forall b :: b in base ==> b.order.None?
  {
    forall b | b in base && b.order.Some?
      ensures b.order.value in Orders(base)
    {
    }
    if Orders(base) != [] {
      assert Orders(base)[0] in Orders(base);
    }
  }

  /** Every API name is a `false` flag, unless it is `activation_rules`, which the rules replace. */
  lemma MetadataFlags(c: Client, base: seq<BaseRow>, n: string)
    requires n in AllNames(base) && n != "activation_rules"
    ensures MetadataFor(c, base)[n] == MBool(false)
  {
    assert n in FlagValues(base);
  }

  /** A key of the fixed object that no API name and not `activation_rules` overrides keeps its value. */
  lemma FixedKeyKept(c: Client, base: seq<BaseRow>, k: string)
    requires k in BaseMetadata(c) && k !in AllNames(base) && k != "activation_rules"
    ensures k in MetadataFor(c, base) && MetadataFor(c, base)[k] == BaseMetadata(c)[k]
  {
    assert k !in FlagValues(base);
  }

  /**
   * A fixed key keeps its value unless an API has its name: `strategy` is the
   * lower-cased strategy, `tentativas` is 0, `sessionId` is null.
   */
  lemma MetadataFixed(c: Client, base: seq<BaseRow>)
    ensures "strategy" !in AllNames(base) ==> MetadataFor(c, base)["strategy"] == StrategyValue(c.strategy)
    ensures "tentativas" !in AllNames(base) ==> MetadataFor(c, base)["tentativas"] == MInt(0)
    ensures "sessionId" !in AllNames(base) ==> MetadataFor(c, base)["sessionId"] == MNull
  {
    assert "activation_rules" != "strategy" && "activation_rules" != "tentativas" && "activation_rules" != "sessionId";
    if "strategy" !in AllNames(base) {
      FixedKeyKept(c, base, "strategy");
    }
    if "tentativas" !in AllNames(base) {
      FixedKeyKept(c, base, "tentativas");
    }
    if "sessionId" !in AllNames(base) {
      FixedKeyKept(c, base, "sessionId");
    }
  }

  /** The metadata `updateClientMetadata` writes for a client, from the current tables. */
  function ClientMetadataOf(c: Client, agents: seq<Agent>, apis: seq<Api>): Metadata {
    MetadataFor(c, ApiBase(agents, apis, c.id))
  }
}
