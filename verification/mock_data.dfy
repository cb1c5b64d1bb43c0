/** The in-memory mock store (`mockDb` in src/lib/mock-data.ts): three
    collections of design systems, tokens and components, with get, create,
    merge-update and delete operations, a cascade from a design system to its
    children, and the per-design-system token and component counts refreshed
    when a child is created or deleted.

    The source keeps the collections in module-level arrays and mutates them
    in place; here every operation takes a `Store` and returns the new one
    together with its outcome. `Date.now()` becomes the `stamp` parameter (its
    decimal rendering, used in generated ids) and `new Date().toISOString()`
    becomes the `now` parameter. */
module MockData {
  import opened Seqs
  import opened Outcomes

  datatype TokenType = Color | Typography | Spacing | BorderRadius | Shadow

  /** A design system as the mock keeps it: the `DesignSystem` row plus the
      attached `tokens[0].count`, `components[0].count` and `projects.name`. */
  datatype DesignSystem = DesignSystem(
    id: string,
    name: string,
    description: Option<string>,
    version: string,
    isPublic: bool,
    createdAt: string,
    updatedAt: string,
    createdBy: string,
    teamId: Option<string>,
    projectId: string,
    tokenCount: nat,
    componentCount: nat,
    projectName: string)

  datatype Token = Token(
    id: string,
    name: string,
    value: string,
    tokenType: TokenType,
    description: Option<string>,
    createdAt: string,
    updatedAt: string,
    designSystemId: string)

  /** `props` is an arbitrary JSON record in the source; its values are
      modelled as strings. */
  datatype Component = Component(
    id: string,
    name: string,
    description: Option<string>,
    componentType: string,
    props: map<string, string>,
    code: string,
    previewImage: Option<string>,
    createdAt: string,
    updatedAt: string,
    designSystemId: string)

  datatype Project = Project(
    id: string,
    name: string,
    description: Option<string>,
    createdAt: string,
    updatedAt: string,
    isArchived: bool,
    createdBy: string,
    teamId: Option<string>)

  /** The fields a caller supplies to `createDesignSystem`
      (`Omit<DesignSystem, 'id' | 'created_at' | 'updated_at'>`). */
  datatype DesignSystemInput = DesignSystemInput(
    name: string,
    description: Option<string>,
    version: string,
    isPublic: bool,
    createdBy: string,
    teamId: Option<string>,
    projectId: string)

  datatype TokenInput = TokenInput(
    name: string,
    value: string,
    tokenType: TokenType,
    description: Option<string>,
    designSystemId: string)

  datatype ComponentInput = ComponentInput(
    name: string,
    description: Option<string>,
    componentType: string,
    props: map<string, string>,
    code: string,
    previewImage: Option<string>,
    designSystemId: string)

  /** `Partial<DesignSystem>`: `None` leaves a field alone. An optional field
      can also be set to absent, hence `Option<Option<_>>`. A supplied
      `updated_at` is always overwritten, so it is not a patch field. */
  datatype DesignSystemPatch = DesignSystemPatch(
    id: Option<string>,
    name: Option<string>,
    description: Option<Option<string>>,
    version: Option<string>,
    isPublic: Option<bool>,
    createdAt: Option<string>,
    createdBy: Option<string>,
    teamId: Option<Option<string>>,
    projectId: Option<string>)

  datatype TokenPatch = TokenPatch(
    id: Option<string>,
    name: Option<string>,
    value: Option<string>,
    tokenType: Option<TokenType>,
    description: Option<Option<string>>,
    createdAt: Option<string>,
    designSystemId: Option<string>)

  datatype ComponentPatch = ComponentPatch(
    id: Option<string>,
    name: Option<string>,
    description: Option<Option<string>>,
    componentType: Option<string>,
    props: Option<map<string, string>>,
    code: Option<string>,
    previewImage: Option<Option<string>>,
    createdAt: Option<string>,
    designSystemId: Option<string>)

  datatype Store = Store(designSystems: seq<DesignSystem>, tokens: seq<Token>, components: seq<Component>)

  /** The store after an operation, and what the operation returned or threw. */
  datatype Step<+T> = Step(store: Store, outcome: Outcome<T>)

  /** What `getDesignSystem` returns: the design system spread together with
      its tokens and components and the fixed project and team names. */
  datatype DesignSystemDetail = DesignSystemDetail(
    designSystem: DesignSystem,
    tokens: seq<Token>,
    components: seq<Component>,
    projectName: string,
    teamName: string)

  const DefaultProjectName := "Default Project"
  const DefaultTeamName := "Default Team"
  const DesignSystemNotFound := "Design system not found"
  const TokenNotFound := "Token not found"
  const ComponentNotFound := "Component not found"

  function DesignSystemId(d: DesignSystem): string { d.id }
  function TokenId(t: Token): string { t.id }
  function ComponentId(c: Component): string { c.id }
  function TokenOwner(t: Token): string { t.designSystemId }
  function ComponentOwner(c: Component): string { c.designSystemId }

  /** Some record of `s` has id `id`. */
  ghost predicate HasId<T>(s: seq<T>, idOf: T -> string, id: string)
  {
    exists i :: 0 <= i < |s| && idOf(s[i]) == id
  }

  /** `i` is the first index of `s` whose record has id `id`: the one
      `find` / `findIndex` picks. */
  ghost predicate IsFirstWithId<T>(s: seq<T>, idOf: T -> string, id: string, i: int)
  {
    0 <= i < |s| && idOf(s[i]) == id && forall j :: 0 <= j < i ==> idOf(s[j]) != id
  }

  function PatchField<T>(supplied: Option<T>, current: T): T
  {
    match supplied
    case Some(v) => v
    case None => current
  }

  // ---------------------------------------------------------------------
  // Seed data

  /** The timestamps the seed records are created with: now, one day ago and
      three days ago. */
  datatype SeedClock = SeedClock(now: string, oneDayAgo: string, threeDaysAgo: string)

  function SeedDesignSystem(id: string, name: string, description: string, at: string,
                            tokenCount: nat, componentCount: nat): DesignSystem
  {
    DesignSystem(id, name, Some(description), "1.0.0", false, at, at, "temp-user-id", None,
                 "mock-project-1", tokenCount, componentCount, DefaultProjectName)
  }

  /** The fields of a seeded token that differ from one token to the next. */
  datatype TokenSeed = TokenSeed(n: string, name: string, value: string, tokenType: TokenType, description: string)

  const TokenSeeds: seq<TokenSeed> := [
    TokenSeed("1", "Primary", "#3b82f6", Color, "Main brand color"),
    TokenSeed("2", "Secondary", "#64748b", Color, "Secondary actions"),
    TokenSeed("3", "Success", "#10b981", Color, "Success states"),
    TokenSeed("4", "Error", "#ef4444", Color, "Error states"),
    TokenSeed("5", "Font Family", "Inter, sans-serif", Typography, "Typography font family"),
    TokenSeed("6", "Base Size", "16px", Typography, "Base font size"),
    TokenSeed("7", "Spacing 4", "4", Spacing, "4px spacing"),
    TokenSeed("8", "Spacing 8", "8", Spacing, "8px spacing"),
    TokenSeed("9", "Spacing 16", "16", Spacing, "16px spacing"),
    TokenSeed("10", "Border Radius Small", "4", BorderRadius, "Small border radius"),
    TokenSeed("11", "Border Radius Medium", "8", BorderRadius, "Medium border radius"),
    TokenSeed("12", "Shadow Small", "0 1px 2px 0 rgb(0 0 0 / 0.05)", Shadow, "Small shadow"),
    TokenSeed("13", "Shadow Medium", "0 4px 6px -1px rgb(0 0 0 / 0.1)", Shadow, "Medium shadow")
  ]

  /** Every seeded token belongs to `mock-1` and was created at `at`. */
  function SeedToken(t: TokenSeed, at: string): Token
  {
    Token("token-" + t.n, t.name, t.value, t.tokenType, Some(t.description), at, at, "mock-1")
  }

  /** A common prefix does not merge two different ids. */
  lemma PrefixedDiffer(p: string, a: string, b: string)
    requires a != b
    ensures p + a != p + b
  {
    assert (p + a)[|p|..] == a && (p + b)[|p|..] == b;
  }

  lemma TokenSeedNumbersDiffer()
    ensures forall i, j :: 0 <= i < j < |TokenSeeds| ==> TokenSeeds[i].n != TokenSeeds[j].n
  {
  }

  /** Thirteen tokens, all filed under `mock-1` and stamped `at`, no two
      with the same id. */
  function SeedTokens(at: string): (r: seq<Token>)
    ensures |r| == 13
    ensures forall i :: 0 <= i < |r| ==> r[i].designSystemId == "mock-1" && r[i].createdAt == at && r[i].updatedAt == at
    ensures UniqueIds(r, TokenId)
  {
    var r := seq(|TokenSeeds|, i requires 0 <= i < |TokenSeeds| => SeedToken(TokenSeeds[i], at));
    TokenSeedNumbersDiffer();
    forall i, j | 0 <= i < j < |r|
      ensures TokenId(r[i]) != TokenId(r[j])
    {
      PrefixedDiffer("token-", TokenSeeds[i].n, TokenSeeds[j].n);
    }
    r
  }

  /** The fields of a seeded component that differ from one to the next. */
  datatype ComponentSeed = ComponentSeed(id: string, name: string, componentType: string,
                                         props: map<string, string>, code: string)

  const ComponentSeeds: seq<ComponentSeed> := [
    ComponentSeed("comp-1", "Button", "button",
                  map["text" := "Click me", "variant" := "default", "size" := "default"],
                  "<Button variant=\"default\" size=\"default\">Click me</Button>"),
    ComponentSeed("comp-2", "Input", "input",
                  map["placeholder" := "Enter text...", "type" := "text"],
                  "<Input placeholder=\"Enter text...\" type=\"text\" />"),
    ComponentSeed("comp-3", "Card", "card",
                  map["title" := "Sample Card", "content" := "Card content goes here..."],
                  "<Card><CardHeader><CardTitle>Sample Card</CardTitle></CardHeader><CardContent>Card content goes here...</CardContent></Card>")
  ]

  /** Every seeded component belongs to `mock-1` and was created at `at`. */
  function SeedComponent(c: ComponentSeed, at: string): Component
  {
    Component(c.id, c.name, None, c.componentType, c.props, c.code, None, at, at, "mock-1")
  }

  lemma ComponentSeedIdsDiffer()
    ensures forall i, j :: 0 <= i < j < |ComponentSeeds| ==> ComponentSeeds[i].id != ComponentSeeds[j].id
  {
  }

  /** Three components, all filed under `mock-1` and stamped `at`, no two
      with the same id. */
  function SeedComponents(at: string): (r: seq<Component>)
    ensures |r| == 3
    ensures forall i :: 0 <= i < |r| ==> r[i].designSystemId == "mock-1" && r[i].createdAt == at && r[i].updatedAt == at
    ensures UniqueIds(r, ComponentId)
  {
    var r := seq(|ComponentSeeds|, i requires 0 <= i < |ComponentSeeds| => SeedComponent(ComponentSeeds[i], at));
    ComponentSeedIdsDiffer();
    r
  }

  /** The store as the module initialises it. The counts attached to the
      design systems are display values: `mock-1` claims 45 tokens and 12
      components but only 13 tokens and 3 components are seeded for it. */
  function InitialStore(c: SeedClock): Store
  {
    Store(
      [ SeedDesignSystem("mock-1", "E-commerce UI Kit", "Complete design system for online stores", c.now, 45, 12),
        SeedDesignSystem("mock-2", "Dashboard Components", "Admin dashboard design system", c.oneDayAgo, 32, 8),
        SeedDesignSystem("mock-3", "Mobile App Design", "iOS and Android component library", c.threeDaysAgo, 28, 15) ],
      SeedTokens(c.now),
      SeedComponents(c.now))
  }

  /** The counts are not an invariant of the store: the seed already breaks
      them for `mock-1`. */
  lemma SeedCountsAreStale(c: SeedClock)
    ensures InitialStore(c).designSystems[0].id == "mock-1"
    ensures InitialStore(c).designSystems[0].tokenCount == 45
    ensures |GetTokens(InitialStore(c), "mock-1")| == 13
    ensures InitialStore(c).designSystems[0].componentCount == 12
    ensures |GetComponents(InitialStore(c), "mock-1")| == 3
  {
    var s := InitialStore(c);
    FilterKeepsAll(s.tokens, IdIs(TokenOwner, "mock-1"));
    FilterKeepsAll(s.components, IdIs(ComponentOwner, "mock-1"));
  }

  // ---------------------------------------------------------------------
  // Design systems

  /** `getDesignSystems(projectId?)`: the whole collection; the project id is
      not used. */
  function GetDesignSystems(s: Store, projectId: Option<string>): seq<DesignSystem>
  {
    s.designSystems
  }

  lemma GetDesignSystemsIgnoresProject(s: Store, p: Option<string>, q: Option<string>)
    ensures GetDesignSystems(s, p) == GetDesignSystems(s, q) == s.designSystems
  {
  }

  /** `getTokens(designSystemId)`: the tokens carrying that design-system id,
      in store order. */
  function GetTokens(s: Store, designSystemId: string): (r: seq<Token>)
    ensures forall i :: 0 <= i < |r| ==> r[i].designSystemId == designSystemId
    ensures |r| == CountWhere(s.tokens, IdIs(TokenOwner, designSystemId))
  {
    Filter(s.tokens, IdIs(TokenOwner, designSystemId))
  }

  /** `getComponents(designSystemId)`. */
  function GetComponents(s: Store, designSystemId: string): (r: seq<Component>)
    ensures forall i :: 0 <= i < |r| ==> r[i].designSystemId == designSystemId
    ensures |r| == CountWhere(s.components, IdIs(ComponentOwner, designSystemId))
  {
    Filter(s.components, IdIs(ComponentOwner, designSystemId))
  }

  /** The child lists are exactly the store's children of that design system,
      in store order: an order-preserving subsequence that contains every
      matching record and nothing else. */
  lemma GetChildrenExact(s: Store, designSystemId: string, t: Token, c: Component)
    ensures IsSubsequence(GetTokens(s, designSystemId), s.tokens)
    ensures t in GetTokens(s, designSystemId) <==> t in s.tokens && t.designSystemId == designSystemId
    ensures IsSubsequence(GetComponents(s, designSystemId), s.components)
    ensures c in GetComponents(s, designSystemId) <==> c in s.components && c.designSystemId == designSystemId
  {
    FilterIsSubsequence(s.tokens, IdIs(TokenOwner, designSystemId));
    FilterMembership(s.tokens, IdIs(TokenOwner, designSystemId), t);
    FilterIsSubsequence(s.components, IdIs(ComponentOwner, designSystemId));
    FilterMembership(s.components, IdIs(ComponentOwner, designSystemId), c);
  }

  /** `getDesignSystem(id)`: the first design system with that id bundled
      with its tokens and components, or the not-found error. */
  function GetDesignSystem(s: Store, id: string): (r: Outcome<DesignSystemDetail>)
    ensures r.Returned? <==> HasId(s.designSystems, DesignSystemId, id)
    ensures r.Returned? ==> exists i :: (IsFirstWithId(s.designSystems, DesignSystemId, id, i)
                                         && r.value.designSystem == s.designSystems[i])
    ensures r.Returned? ==> r.value.tokens == GetTokens(s, id) && r.value.components == GetComponents(s, id)
    ensures r.Returned? ==> r.value.projectName == "Default Project" && r.value.teamName == "Default Team"
    ensures r.Threw? ==> r.thrown == ErrorObject("Design system not found")
  {
    match IndexOfId(s.designSystems, DesignSystemId, id)
    case None => Threw(ErrorObject(DesignSystemNotFound))
    case Some(i) =>
      Returned(DesignSystemDetail(s.designSystems[i], GetTokens(s, id), GetComponents(s, id),
                                  DefaultProjectName, DefaultTeamName))
  }

  /** `createDesignSystem(input)`: a new design system with a generated id,
      both timestamps set to `now` and zero counts, put at the front. */
  function CreateDesignSystem(s: Store, input: DesignSystemInput, stamp: string, now: string): (r: Step<DesignSystem>)
    ensures r.outcome.Returned?
    ensures r.store.designSystems == [r.outcome.value] + s.designSystems
    ensures r.store.tokens == s.tokens && r.store.components == s.components
    ensures var d := r.outcome.value;
      && d.id == "mock-" + stamp
      && d.createdAt == now && d.updatedAt == now
      && d.tokenCount == 0 && d.componentCount == 0
      && d.name == input.name && d.description == input.description && d.version == input.version
      && d.isPublic == input.isPublic && d.createdBy == input.createdBy && d.teamId == input.teamId
      && d.projectId == input.projectId
  {
    var d := DesignSystem("mock-" + stamp, input.name, input.description, input.version, input.isPublic,
                          now, now, input.createdBy, input.teamId, input.projectId, 0, 0, DefaultProjectName);
    Step(s.(designSystems := [d] + s.designSystems), Returned(d))
  }

  /** What a created design system reads back as: the same record, with the
      children already filed under its id. */
  lemma CreateThenGetDesignSystem(s: Store, input: DesignSystemInput, stamp: string, now: string)
    ensures var step := CreateDesignSystem(s, input, stamp, now);
      var got := GetDesignSystem(step.store, step.outcome.value.id);
      got.Returned? && got.value.designSystem == step.outcome.value
      && got.value.tokens == GetTokens(s, "mock-" + stamp)
  {
    var step := CreateDesignSystem(s, input, stamp, now);
    assert IsFirstWithId(step.store.designSystems, DesignSystemId, step.outcome.value.id, 0);
  }

  function PatchDesignSystem(d: DesignSystem, p: DesignSystemPatch, now: string): DesignSystem
  {
    d.(id := PatchField(p.id, d.id), name := PatchField(p.name, d.name),
       description := PatchField(p.description, d.description),
       version := PatchField(p.version, d.version), isPublic := PatchField(p.isPublic, d.isPublic),
       createdAt := PatchField(p.createdAt, d.createdAt), updatedAt := now,
       createdBy := PatchField(p.createdBy, d.createdBy), teamId := PatchField(p.teamId, d.teamId),
       projectId := PatchField(p.projectId, d.projectId))
  }

  lemma PatchDesignSystemTwice(x: DesignSystem, p: DesignSystemPatch, now: string)
    ensures PatchDesignSystem(PatchDesignSystem(x, p, now), p, now) == PatchDesignSystem(x, p, now)
  {
  }

  /** `{ ...old, ...updates, updated_at: now }`: every supplied field
      overwrites, every other field keeps its value, `updated_at` becomes
      `now`, and the attached counts and project name are carried over. */
  ghost predicate MergedDesignSystem(prior: DesignSystem, p: DesignSystemPatch, now: string, d: DesignSystem)
  {
    && (p.id.Some? ==> d.id == p.id.value) && (p.id.None? ==> d.id == prior.id)
    && (p.name.Some? ==> d.name == p.name.value) && (p.name.None? ==> d.name == prior.name)
    && (p.description.Some? ==> d.description == p.description.value)
    && (p.description.None? ==> d.description == prior.description)
    && (p.version.Some? ==> d.version == p.version.value) && (p.version.None? ==> d.version == prior.version)
    && (p.isPublic.Some? ==> d.isPublic == p.isPublic.value) && (p.isPublic.None? ==> d.isPublic == prior.isPublic)
    && (p.createdAt.Some? ==> d.createdAt == p.createdAt.value)
    && (p.createdAt.None? ==> d.createdAt == prior.createdAt)
    && (p.createdBy.Some? ==> d.createdBy == p.createdBy.value)
    && (p.createdBy.None? ==> d.createdBy == prior.createdBy)
    && (p.teamId.Some? ==> d.teamId == p.teamId.value) && (p.teamId.None? ==> d.teamId == prior.teamId)
    && (p.projectId.Some? ==> d.projectId == p.projectId.value)
    && (p.projectId.None? ==> d.projectId == prior.projectId)
    && d.updatedAt == now
    && d.tokenCount == prior.tokenCount && d.componentCount == prior.componentCount
    && d.projectName == prior.projectName
  }

  /** `updateDesignSystem(id, updates)`: merges the patch into the first
      design system with that id, in place; not-found leaves the store as it
      was. */
  function UpdateDesignSystem(s: Store, id: string, p: DesignSystemPatch, now: string): (r: Step<DesignSystem>)
    ensures r.outcome.Threw? <==> !HasId(s.designSystems, DesignSystemId, id)
    ensures r.outcome.Threw? ==> r.store == s && r.outcome.thrown == ErrorObject("Design system not found")
    ensures r.outcome.Returned? ==> exists i :: (IsFirstWithId(s.designSystems, DesignSystemId, id, i)
      && MergedDesignSystem(s.designSystems[i], p, now, r.outcome.value)
      && r.store.designSystems == s.designSystems[i := r.outcome.value])
    ensures r.store.tokens == s.tokens && r.store.components == s.components
  {
    match IndexOfId(s.designSystems, DesignSystemId, id)
    case None => Step(s, Threw(ErrorObject(DesignSystemNotFound)))
    case Some(i) =>
      var d := PatchDesignSystem(s.designSystems[i], p, now);
      Step(s.(designSystems := s.designSystems[i := d]), Returned(d))
  }

  /** Repeating an update that does not rename the record changes nothing
      more. */
  lemma UpdateDesignSystemIdempotent(s: Store, id: string, p: DesignSystemPatch, now: string)
    requires p.id.None?
    ensures var once := UpdateDesignSystem(s, id, p, now);
      UpdateDesignSystem(once.store, id, p, now) == once
  {
    var once := UpdateDesignSystem(s, id, p, now);
    match IndexOfId(s.designSystems, DesignSystemId, id)
    case None =>
    case Some(i) =>
      PatchDesignSystemTwice(s.designSystems[i], p, now);
      IndexOfIdAfterUpdate(s.designSystems, DesignSystemId, id, i, once.outcome.value);
  }

  /** An update with an empty patch only refreshes `updated_at`. */
  lemma EmptyDesignSystemPatchTouchesOnlyTimestamp(s: Store, id: string, now: string, i: nat)
    requires IsFirstWithId(s.designSystems, DesignSystemId, id, i)
    ensures var r := UpdateDesignSystem(s, id, DesignSystemPatch(None, None, None, None, None, None, None, None, None), now);
      r.outcome == Returned(s.designSystems[i].(updatedAt := now))
  {
    assert IndexOfId(s.designSystems, DesignSystemId, id) == Some(i);
  }

  /** `deleteDesignSystem(id)`: splices out the first design system with that
      id and drops every token and component filed under the id. */
  function DeleteDesignSystem(s: Store, id: string): (r: Step<()>)
    ensures r.outcome.Threw? <==> !HasId(s.designSystems, DesignSystemId, id)
    ensures r.outcome.Threw? ==> r.store == s && r.outcome.thrown == ErrorObject("Design system not found")
    ensures r.outcome.Returned? ==> exists i :: (IsFirstWithId(s.designSystems, DesignSystemId, id, i)
      && r.store.designSystems == s.designSystems[..i] + s.designSystems[i + 1..])
    ensures r.outcome.Returned? ==>
      (forall k :: 0 <= k < |r.store.tokens| ==> r.store.tokens[k].designSystemId != id)
      && (forall k :: 0 <= k < |r.store.components| ==> r.store.components[k].designSystemId != id)
  {
    match IndexOfId(s.designSystems, DesignSystemId, id)
    case None => Step(s, Threw(ErrorObject(DesignSystemNotFound)))
    case Some(i) =>
      Step(Store(RemoveAt(s.designSystems, i),
                 WithoutId(s.tokens, TokenOwner, id),
                 WithoutId(s.components, ComponentOwner, id)),
           Returned(()))
  }

  /** The cascade: after deleting a design system, it has no tokens or
      components left, and every other design system keeps exactly the
      children it had, in their order. */
  lemma DeleteDesignSystemCascades(s: Store, id: string, other: string)
    requires HasId(s.designSystems, DesignSystemId, id)
    requires other != id
    ensures var s' := DeleteDesignSystem(s, id).store;
      && GetTokens(s', id) == [] && GetComponents(s', id) == []
      && GetTokens(s', other) == GetTokens(s, other)
      && GetComponents(s', other) == GetComponents(s, other)
  {
    var s' := DeleteDesignSystem(s, id).store;
    FilterDropsAll(s'.tokens, IdIs(TokenOwner, id));
    FilterDropsAll(s'.components, IdIs(ComponentOwner, id));
    FilterFilter(s.tokens, IdIsNot(TokenOwner, id), IdIs(TokenOwner, other));
    FilterFilter(s.components, IdIsNot(ComponentOwner, id), IdIs(ComponentOwner, other));
  }

  /** With unique design-system ids, a deleted design system can no longer be
      read. */
  lemma DeleteThenGetDesignSystemFails(s: Store, id: string)
    requires UniqueIds(s.designSystems, DesignSystemId)
    requires HasId(s.designSystems, DesignSystemId, id)
    ensures GetDesignSystem(DeleteDesignSystem(s, id).store, id).Threw?
  {
    var i := IndexOfId(s.designSystems, DesignSystemId, id).value;
    var ds' := DeleteDesignSystem(s, id).store.designSystems;
    assert ds' == RemoveAt(s.designSystems, i);
    forall k | 0 <= k < |ds'|
      ensures ds'[k].id != id
    {
      if k < i {
        assert ds'[k] == s.designSystems[k];
      } else {
        assert ds'[k] == s.designSystems[k + 1];
        assert DesignSystemId(s.designSystems[i]) != DesignSystemId(s.designSystems[k + 1]);
      }
    }
  }

  // ---------------------------------------------------------------------
  // Count refresh

  /** The token count of the first design system with id `owner` is now `n`;
      every other design system, and every other field, is as before. A
      missing owner changes nothing. */
  ghost predicate TokenCountRefreshed(before: seq<DesignSystem>, after: seq<DesignSystem>, owner: string, n: nat)
  {
    |after| == |before|
    && forall i :: 0 <= i < |before| ==>
         after[i] == (if IsFirstWithId(before, DesignSystemId, owner, i) then before[i].(tokenCount := n) else before[i])
  }

  ghost predicate ComponentCountRefreshed(before: seq<DesignSystem>, after: seq<DesignSystem>, owner: string, n: nat)
  {
    |after| == |before|
    && forall i :: 0 <= i < |before| ==>
         after[i] == (if IsFirstWithId(before, DesignSystemId, owner, i) then before[i].(componentCount := n) else before[i])
  }

  /** `designSystem.tokens[0].count = mockTokens.filter(...).length` on the
      design system `find` returns, if any. */
  function RefreshTokenCount(ds: seq<DesignSystem>, owner: string, tokens: seq<Token>): (r: seq<DesignSystem>)
    ensures TokenCountRefreshed(ds, r, owner, |Filter(tokens, IdIs(TokenOwner, owner))|)
  {
    match IndexOfId(ds, DesignSystemId, owner)
    case None => ds
    case Some(i) => ds[i := ds[i].(tokenCount := |Filter(tokens, IdIs(TokenOwner, owner))|)]
  }

  function RefreshComponentCount(ds: seq<DesignSystem>, owner: string, components: seq<Component>): (r: seq<DesignSystem>)
    ensures ComponentCountRefreshed(ds, r, owner, |Filter(components, IdIs(ComponentOwner, owner))|)
  {
    match IndexOfId(ds, DesignSystemId, owner)
    case None => ds
    case Some(i) => ds[i := ds[i].(componentCount := |Filter(components, IdIs(ComponentOwner, owner))|)]
  }

  // ---------------------------------------------------------------------
  // Tokens

  /** `createToken(input)`: a new token at the front, with a generated id and
      both timestamps `now`; the owner's token count becomes the number of
      its tokens. Never fails, even when the owner does not exist. */
  function CreateToken(s: Store, input: TokenInput, stamp: string, now: string): (r: Step<Token>)
    ensures r.outcome.Returned?
    ensures r.store.tokens == [r.outcome.value] + s.tokens
    ensures var t := r.outcome.value;
      && t.id == "token-" + stamp && t.createdAt == now && t.updatedAt == now
      && t.name == input.name && t.value == input.value && t.tokenType == input.tokenType
      && t.description == input.description && t.designSystemId == input.designSystemId
    ensures TokenCountRefreshed(s.designSystems, r.store.designSystems, input.designSystemId,
                                |GetTokens(r.store, input.designSystemId)|)
    ensures r.store.components == s.components
  {
    var t := Token("token-" + stamp, input.name, input.value, input.tokenType, input.description,
                   now, now, input.designSystemId);
    var tokens := [t] + s.tokens;
    Step(Store(RefreshTokenCount(s.designSystems, input.designSystemId, tokens), tokens, s.components),
         Returned(t))
  }

  /** A created token is first among its design system's tokens. */
  lemma CreateTokenListsFirst(s: Store, input: TokenInput, stamp: string, now: string)
    ensures var step := CreateToken(s, input, stamp, now);
      GetTokens(step.store, input.designSystemId) == [step.outcome.value] + GetTokens(s, input.designSystemId)
  {
    var step := CreateToken(s, input, stamp, now);
    var p := IdIs(TokenOwner, input.designSystemId);
    assert step.store.tokens == [step.outcome.value] + s.tokens;
    assert p(step.outcome.value);
    assert step.store.tokens[1..] == s.tokens;
  }

  function PatchToken(t: Token, p: TokenPatch, now: string): Token
  {
    t.(id := PatchField(p.id, t.id), name := PatchField(p.name, t.name),
       value := PatchField(p.value, t.value), tokenType := PatchField(p.tokenType, t.tokenType),
       description := PatchField(p.description, t.description),
       createdAt := PatchField(p.createdAt, t.createdAt), updatedAt := now,
       designSystemId := PatchField(p.designSystemId, t.designSystemId))
  }

  lemma PatchTokenTwice(x: Token, p: TokenPatch, now: string)
    ensures PatchToken(PatchToken(x, p, now), p, now) == PatchToken(x, p, now)
  {
  }

  ghost predicate MergedToken(prior: Token, p: TokenPatch, now: string, t: Token)
  {
    && (p.id.Some? ==> t.id == p.id.value) && (p.id.None? ==> t.id == prior.id)
    && (p.name.Some? ==> t.name == p.name.value) && (p.name.None? ==> t.name == prior.name)
    && (p.value.Some? ==> t.value == p.value.value) && (p.value.None? ==> t.value == prior.value)
    && (p.tokenType.Some? ==> t.tokenType == p.tokenType.value) && (p.tokenType.None? ==> t.tokenType == prior.tokenType)
    && (p.description.Some? ==> t.description == p.description.value)
    && (p.description.None? ==> t.description == prior.description)
    && (p.createdAt.Some? ==> t.createdAt == p.createdAt.value) && (p.createdAt.None? ==> t.createdAt == prior.createdAt)
    && (p.designSystemId.Some? ==> t.designSystemId == p.designSystemId.value)
    && (p.designSystemId.None? ==> t.designSystemId == prior.designSystemId)
    && t.updatedAt == now
  }

  /** `updateToken(id, updates)`: merges into the first token with that id, in
      place. The counts are not refreshed, even when the token moves to
      another design system. */
  function UpdateToken(s: Store, id: string, p: TokenPatch, now: string): (r: Step<Token>)
    ensures r.outcome.Threw? <==> !HasId(s.tokens, TokenId, id)
    ensures r.outcome.Threw? ==> r.store == s && r.outcome.thrown == ErrorObject("Token not found")
    ensures r.outcome.Returned? ==> exists i :: (IsFirstWithId(s.tokens, TokenId, id, i)
      && MergedToken(s.tokens[i], p, now, r.outcome.value)
      && r.store.tokens == s.tokens[i := r.outcome.value])
    ensures r.store.designSystems == s.designSystems && r.store.components == s.components
  {
    match IndexOfId(s.tokens, TokenId, id)
    case None => Step(s, Threw(ErrorObject(TokenNotFound)))
    case Some(i) =>
      var t := PatchToken(s.tokens[i], p, now);
      Step(s.(tokens := s.tokens[i := t]), Returned(t))
  }

  /** Applying the same id-preserving patch twice gives what applying it once
      gave: the second call finds the updated token at the same place. */
  lemma UpdateTokenIdempotent(s: Store, id: string, p: TokenPatch, now: string)
    requires p.id.None?
    ensures var once := UpdateToken(s, id, p, now);
      UpdateToken(once.store, id, p, now) == once
  {
    var once := UpdateToken(s, id, p, now);
    match IndexOfId(s.tokens, TokenId, id)
    case None =>
    case Some(i) =>
      PatchTokenTwice(s.tokens[i], p, now);
      IndexOfIdAfterUpdate(s.tokens, TokenId, id, i, once.outcome.value);
  }

  /** `deleteToken(id)`: splices out the first token with that id and
      refreshes its design system's token count. */
  function DeleteToken(s: Store, id: string): (r: Step<()>)
    ensures r.outcome.Threw? <==> !HasId(s.tokens, TokenId, id)
    ensures r.outcome.Threw? ==> r.store == s && r.outcome.thrown == ErrorObject("Token not found")
    ensures r.outcome.Returned? ==> exists i :: (IsFirstWithId(s.tokens, TokenId, id, i)
      && r.store.tokens == s.tokens[..i] + s.tokens[i + 1..]
      && TokenCountRefreshed(s.designSystems, r.store.designSystems, s.tokens[i].designSystemId,
                             |GetTokens(r.store, s.tokens[i].designSystemId)|))
    ensures r.outcome.Returned? ==> |r.store.tokens| == |s.tokens| - 1
    ensures r.store.components == s.components
  {
    match IndexOfId(s.tokens, TokenId, id)
    case None => Step(s, Threw(ErrorObject(TokenNotFound)))
    case Some(i) =>
      var owner := s.tokens[i].designSystemId;
      var tokens := RemoveAt(s.tokens, i);
      Step(Store(RefreshTokenCount(s.designSystems, owner, tokens), tokens, s.components), Returned(()))
  }

  /** Deleting a token leaves every other design system's tokens as they were,
      and its own design system one token fewer. */
  lemma DeleteTokenShrinksOwner(s: Store, id: string, i: nat, other: string)
    requires IsFirstWithId(s.tokens, TokenId, id, i)
    requires other != s.tokens[i].designSystemId
    ensures var s' := DeleteToken(s, id).store;
      && GetTokens(s', other) == GetTokens(s, other)
      && |GetTokens(s', s.tokens[i].designSystemId)| + 1 == |GetTokens(s, s.tokens[i].designSystemId)|
  {
    assert IndexOfId(s.tokens, TokenId, id) == Some(i);
    var owner := s.tokens[i].designSystemId;
    FilterRemoveAtUnmatched(s.tokens, i, IdIs(TokenOwner, other));
    var before, after := s.tokens[..i], s.tokens[i + 1..];
    assert s.tokens == before + [s.tokens[i]] + after;
    FilterAppend(before + [s.tokens[i]], after, IdIs(TokenOwner, owner));
    FilterAppend(before, [s.tokens[i]], IdIs(TokenOwner, owner));
    FilterAppend(before, after, IdIs(TokenOwner, owner));
  }

  // ---------------------------------------------------------------------
  // Components

  /** `createComponent(input)`: as `createToken`, for components. */
  function CreateComponent(s: Store, input: ComponentInput, stamp: string, now: string): (r: Step<Component>)
    ensures r.outcome.Returned?
    ensures r.store.components == [r.outcome.value] + s.components
    ensures var c := r.outcome.value;
      && c.id == "comp-" + stamp && c.createdAt == now && c.updatedAt == now
      && c.name == input.name && c.description == input.description
      && c.componentType == input.componentType && c.props == input.props && c.code == input.code
      && c.previewImage == input.previewImage && c.designSystemId == input.designSystemId
    ensures ComponentCountRefreshed(s.designSystems, r.store.designSystems, input.designSystemId,
                                    |GetComponents(r.store, input.designSystemId)|)
    ensures r.store.tokens == s.tokens
  {
    var c := Component("comp-" + stamp, input.name, input.description, input.componentType, input.props,
                       input.code, input.previewImage, now, now, input.designSystemId);
    var components := [c] + s.components;
    Step(Store(RefreshComponentCount(s.designSystems, input.designSystemId, components), s.tokens, components),
         Returned(c))
  }

  /** A created component is first among its design system's components. */
  lemma CreateComponentListsFirst(s: Store, input: ComponentInput, stamp: string, now: string)
    ensures var step := CreateComponent(s, input, stamp, now);
      GetComponents(step.store, input.designSystemId) == [step.outcome.value] + GetComponents(s, input.designSystemId)
  {
    var step := CreateComponent(s, input, stamp, now);
    var p := IdIs(ComponentOwner, input.designSystemId);
    assert step.store.components == [step.outcome.value] + s.components;
    assert p(step.outcome.value);
    assert step.store.components[1..] == s.components;
  }

  function PatchComponent(c: Component, p: ComponentPatch, now: string): Component
  {
    c.(id := PatchField(p.id, c.id), name := PatchField(p.name, c.name),
       description := PatchField(p.description, c.description),
       componentType := PatchField(p.componentType, c.componentType),
       props := PatchField(p.props, c.props), code := PatchField(p.code, c.code),
       previewImage := PatchField(p.previewImage, c.previewImage),
       createdAt := PatchField(p.createdAt, c.createdAt), updatedAt := now,
       designSystemId := PatchField(p.designSystemId, c.designSystemId))
  }

  lemma PatchComponentTwice(x: Component, p: ComponentPatch, now: string)
    ensures PatchComponent(PatchComponent(x, p, now), p, now) == PatchComponent(x, p, now)
  {
  }

  ghost predicate MergedComponent(prior: Component, p: ComponentPatch, now: string, c: Component)
  {
    && (p.id.Some? ==> c.id == p.id.value) && (p.id.None? ==> c.id == prior.id)
    && (p.name.Some? ==> c.name == p.name.value) && (p.name.None? ==> c.name == prior.name)
    && (p.description.Some? ==> c.description == p.description.value)
    && (p.description.None? ==> c.description == prior.description)
    && (p.componentType.Some? ==> c.componentType == p.componentType.value)
    && (p.componentType.None? ==> c.componentType == prior.componentType)
    && (p.props.Some? ==> c.props == p.props.value) && (p.props.None? ==> c.props == prior.props)
    && (p.code.Some? ==> c.code == p.code.value) && (p.code.None? ==> c.code == prior.code)
    && (p.previewImage.Some? ==> c.previewImage == p.previewImage.value)
    && (p.previewImage.None? ==> c.previewImage == prior.previewImage)
    && (p.createdAt.Some? ==> c.createdAt == p.createdAt.value) && (p.createdAt.None? ==> c.createdAt == prior.createdAt)
    && (p.designSystemId.Some? ==> c.designSystemId == p.designSystemId.value)
    && (p.designSystemId.None? ==> c.designSystemId == prior.designSystemId)
    && c.updatedAt == now
  }

  /** `updateComponent(id, updates)`. */
  function UpdateComponent(s: Store, id: string, p: ComponentPatch, now: string): (r: Step<Component>)
    ensures r.outcome.Threw? <==> !HasId(s.components, ComponentId, id)
    ensures r.outcome.Threw? ==> r.store == s && r.outcome.thrown == ErrorObject("Component not found")
    ensures r.outcome.Returned? ==> exists i :: (IsFirstWithId(s.components, ComponentId, id, i)
      && MergedComponent(s.components[i], p, now, r.outcome.value)
      && r.store.components == s.components[i := r.outcome.value])
    ensures r.store.designSystems == s.designSystems && r.store.tokens == s.tokens
  {
    match IndexOfId(s.components, ComponentId, id)
    case None => Step(s, Threw(ErrorObject(ComponentNotFound)))
    case Some(i) =>
      var c := PatchComponent(s.components[i], p, now);
      Step(s.(components := s.components[i := c]), Returned(c))
  }

  /** Applying the same id-preserving patch twice gives what applying it once
      gave. */
  lemma UpdateComponentIdempotent(s: Store, id: string, p: ComponentPatch, now: string)
    requires p.id.None?
    ensures var once := UpdateComponent(s, id, p, now);
      UpdateComponent(once.store, id, p, now) == once
  {
    var once := UpdateComponent(s, id, p, now);
    match IndexOfId(s.components, ComponentId, id)
    case None =>
    case Some(i) =>
      PatchComponentTwice(s.components[i], p, now);
      IndexOfIdAfterUpdate(s.components, ComponentId, id, i, once.outcome.value);
  }

  /** `deleteComponent(id)`. */
  function DeleteComponent(s: Store, id: string): (r: Step<()>)
    ensures r.outcome.Threw? <==> !HasId(s.components, ComponentId, id)
    ensures r.outcome.Threw? ==> r.store == s && r.outcome.thrown == ErrorObject("Component not found")
    ensures r.outcome.Returned? ==> exists i :: (IsFirstWithId(s.components, ComponentId, id, i)
      && r.store.components == s.components[..i] + s.components[i + 1..]
      && ComponentCountRefreshed(s.designSystems, r.store.designSystems, s.components[i].designSystemId,
                                 |GetComponents(r.store, s.components[i].designSystemId)|))
    ensures r.outcome.Returned? ==> |r.store.components| == |s.components| - 1
    ensures r.store.tokens == s.tokens
  {
    match IndexOfId(s.components, ComponentId, id)
    case None => Step(s, Threw(ErrorObject(ComponentNotFound)))
    case Some(i) =>
      var owner := s.components[i].designSystemId;
      var components := RemoveAt(s.components, i);
      Step(Store(RefreshComponentCount(s.designSystems, owner, components), s.tokens, components), Returned(()))
  }

  /** Deleting a component leaves every other design system's components as
      they were, and its own design system one component fewer. */
  lemma DeleteComponentShrinksOwner(s: Store, id: string, i: nat, other: string)
    requires IsFirstWithId(s.components, ComponentId, id, i)
    requires other != s.components[i].designSystemId
    ensures var s' := DeleteComponent(s, id).store;
      && GetComponents(s', other) == GetComponents(s, other)
      && |GetComponents(s', s.components[i].designSystemId)| + 1 == |GetComponents(s, s.components[i].designSystemId)|
  {
    assert IndexOfId(s.components, ComponentId, id) == Some(i);
    var owner := s.components[i].designSystemId;
    FilterRemoveAtUnmatched(s.components, i, IdIs(ComponentOwner, other));
    var before, after := s.components[..i], s.components[i + 1..];
    assert s.components == before + [s.components[i]] + after;
    FilterAppend(before + [s.components[i]], after, IdIs(ComponentOwner, owner));
    FilterAppend(before, [s.components[i]], IdIs(ComponentOwner, owner));
    FilterAppend(before, after, IdIs(ComponentOwner, owner));
  }

  // ---------------------------------------------------------------------
  // Projects

  /** `createDefaultProject()`: the fixed default project, stamped `now`. It
      does not touch the store. */
  function CreateDefaultProject(now: string): (r: Project)
    ensures r.id == "mock-project-1" && r.createdAt == now && r.updatedAt == now && !r.isArchived
    ensures r.createdBy == "temp-user-id" && r.teamId.None?
  {
    Project("mock-project-1", DefaultProjectName, Some("Default project for design systems"), now, now,
            false, "temp-user-id", None)
  }
}
