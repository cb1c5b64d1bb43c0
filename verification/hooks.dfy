/** The four data hooks of src/hooks/use-design-systems.ts. Every callback
    picks the backend by data mode, calls it, and then updates the hook's
    local state from the outcome. Fetches swallow errors into the `error`
    string; mutations record the error and rethrow it.

    A callback here takes the mock store (used in mock mode) and the outcome
    the remote database would give (used in database mode), and returns the
    new store, the new hook state and how its promise settles. */

module UseDesignSystems {
  import opened Seqs
  import opened Outcomes
  import opened DataMode
  import opened HookState
  import M = MockData

  type State = ListState<M.DesignSystem>

  const FetchFailed := "Failed to fetch design systems"
  const CreateFailed := "Failed to create design system"
  const UpdateFailed := "Failed to update design system"
  const DeleteFailed := "Failed to delete design system"

  /** `fetchDesignSystems`: in mock mode the list becomes the whole mock
      collection; in database mode it becomes the remote result, or keeps its
      entries and records the message when the call fails. */
  function Fetch(mode: DataMode, store: M.Store, st: State, projectId: Option<string>,
                 db: Outcome<seq<M.DesignSystem>>): (r: State)
    ensures !r.loading
    ensures mode == Mock ==> r.items == store.designSystems && r.error.None?
    ensures mode == Database && db.Returned? ==> r.items == db.value && r.error.None?
    ensures mode == Database && db.Threw? ==>
      r.items == st.items && r.error == Some(MessageOr(db.thrown, "Failed to fetch design systems"))
  {
    var mock := M.Step(store, Returned(M.GetDesignSystems(store, projectId)));
    Fetched(st, Dispatch(mode, store, mock, db).outcome, FetchFailed)
  }

  /** `createDesignSystem`: on success the created record goes to the front
      of the local list. */
  function Create(mode: DataMode, store: M.Store, st: State, input: M.DesignSystemInput,
                  stamp: string, now: string, db: Outcome<M.DesignSystem>): (r: Mutation<State, M.DesignSystem>)
    ensures r.store == (if mode == Mock then M.CreateDesignSystem(store, input, stamp, now).store else store)
    ensures r.completion == (if mode == Mock then M.CreateDesignSystem(store, input, stamp, now).outcome else db)
    ensures r.completion.Returned? ==> r.state.items == [r.completion.value] + st.items && r.state.error == st.error
    ensures r.completion.Threw? ==>
      r.state.items == st.items && r.state.error == Some(MessageOr(r.completion.thrown, "Failed to create design system"))
  {
    Created(st, Dispatch(mode, store, M.CreateDesignSystem(store, input, stamp, now), db), CreateFailed)
  }

  /** `updateDesignSystem`: on success every local entry with the id becomes
      the updated record. */
  function Update(mode: DataMode, store: M.Store, st: State, id: string, p: M.DesignSystemPatch,
                  now: string, db: Outcome<M.DesignSystem>): (r: Mutation<State, M.DesignSystem>)
    ensures r.store == (if mode == Mock then M.UpdateDesignSystem(store, id, p, now).store else store)
    ensures r.completion == (if mode == Mock then M.UpdateDesignSystem(store, id, p, now).outcome else db)
    ensures r.completion.Returned? ==>
      r.state.items == ReplaceWhere(st.items, M.DesignSystemId, id, r.completion.value) && r.state.error == st.error
    ensures r.completion.Threw? ==>
      r.state.items == st.items && r.state.error == Some(MessageOr(r.completion.thrown, "Failed to update design system"))
  {
    Updated(st, M.DesignSystemId, id, Dispatch(mode, store, M.UpdateDesignSystem(store, id, p, now), db), UpdateFailed)
  }

  /** `deleteDesignSystem`: on success every local entry with the id is
      dropped. */
  function Delete(mode: DataMode, store: M.Store, st: State, id: string, db: Outcome<()>)
    : (r: Mutation<State, ()>)
    ensures r.store == (if mode == Mock then M.DeleteDesignSystem(store, id).store else store)
    ensures r.completion == (if mode == Mock then M.DeleteDesignSystem(store, id).outcome else db)
    ensures r.completion.Returned? ==> r.state.items == WithoutId(st.items, M.DesignSystemId, id) && r.state.error == st.error
    ensures r.completion.Threw? ==>
      r.state.items == st.items && r.state.error == Some(MessageOr(r.completion.thrown, "Failed to delete design system"))
  {
    Deleted(st, M.DesignSystemId, id, Dispatch(mode, store, M.DeleteDesignSystem(store, id), db), DeleteFailed)
  }

  /** In mock mode a missing id surfaces the store's own message, rethrown,
      and nothing changes but the error. */
  lemma MockMissingIdReportsNotFound(store: M.Store, st: State, id: string, p: M.DesignSystemPatch, now: string,
                                     db: Outcome<M.DesignSystem>, dbDel: Outcome<()>)
    requires forall i :: 0 <= i < |store.designSystems| ==> store.designSystems[i].id != id
    ensures var u := Update(Mock, store, st, id, p, now, db);
      u.store == store && u.state == st.(error := Some("Design system not found")) && u.completion.Threw?
    ensures var d := Delete(Mock, store, st, id, dbDel);
      d.store == store && d.state == st.(error := Some("Design system not found")) && d.completion.Threw?
  {
  }

  // ---------------------------------------------------------------------
  // The local list against the mock store

  /** In mock mode, once fetched, the local list is the store's collection,
      and with unique ids every later create, update and delete keeps it so:
      the hook shows exactly what the store holds. */
  lemma MockListMirrorsStore(store: M.Store, st: State, projectId: Option<string>, db: Outcome<seq<M.DesignSystem>>)
    ensures Fetch(Mock, store, st, projectId, db).items == store.designSystems
  {
  }

  lemma MockCreateKeepsMirror(store: M.Store, st: State, input: M.DesignSystemInput, stamp: string, now: string,
                              db: Outcome<M.DesignSystem>)
    requires st.items == store.designSystems
    ensures var r := Create(Mock, store, st, input, stamp, now, db);
      r.state.items == r.store.designSystems
  {
  }

  lemma MockUpdateKeepsMirror(store: M.Store, st: State, id: string, p: M.DesignSystemPatch, now: string,
                              db: Outcome<M.DesignSystem>)
    requires st.items == store.designSystems
    requires UniqueIds(store.designSystems, M.DesignSystemId)
    ensures var r := Update(Mock, store, st, id, p, now, db);
      r.state.items == r.store.designSystems
  {
    match IndexOfId(store.designSystems, M.DesignSystemId, id)
    case None =>
    case Some(i) =>
      var r := Update(Mock, store, st, id, p, now, db);
      ReplaceWhereUnique(st.items, M.DesignSystemId, id, r.completion.value, i);
  }

  lemma MockDeleteKeepsMirror(store: M.Store, st: State, id: string, db: Outcome<()>)
    requires st.items == store.designSystems
    requires UniqueIds(store.designSystems, M.DesignSystemId)
    ensures var r := Delete(Mock, store, st, id, db);
      r.state.items == r.store.designSystems
  {
    match IndexOfId(store.designSystems, M.DesignSystemId, id)
    case None =>
    case Some(i) =>
      WithoutIdUnique(st.items, M.DesignSystemId, id, i);
  }

  /** The callback as the source writes it, in mock mode after a fetch: the
      fetched list is the store's own array, so the store's `unshift` has
      already put the new record at the front of `prev` when the hook
      prepends it once more. */
  function AliasedCreate(store: M.Store, input: M.DesignSystemInput, stamp: string, now: string)
    : (items: seq<M.DesignSystem>)
    ensures |items| == |store.designSystems| + 2
  {
    var step := M.CreateDesignSystem(store, input, stamp, now);
    [step.outcome.value] + step.store.designSystems
  }

  /** As written, the new design system is listed twice, and the local list
      no longer matches the store. */
  lemma AliasedCreateListsTwice(store: M.Store, input: M.DesignSystemInput, stamp: string, now: string)
    ensures var items := AliasedCreate(store, input, stamp, now);
      && items[0] == items[1] && items[0].id == "mock-" + stamp
      && items != M.CreateDesignSystem(store, input, stamp, now).store.designSystems
  {
    var items := AliasedCreate(store, input, stamp, now);
    var s' := M.CreateDesignSystem(store, input, stamp, now).store.designSystems;
    assert |items| != |s'|;
  }
}

module UseDesignSystem {
  import opened Seqs
  import opened Outcomes
  import opened DataMode
  import opened HookState
  import M = MockData

  /** What the `designSystem` state holds: a fetch stores the whole detail
      `getDesignSystem` returns (with its token and component lists and the
      project and team names), an update the plain record it returns. */
  datatype Held = Detail(detail: M.DesignSystemDetail) | Record(record: M.DesignSystem)
  {
    function Id(): string
    {
      match this
      case Detail(d) => d.designSystem.id
      case Record(r) => r.id
    }
  }

  /** `{ designSystem, loading, error }` of `useDesignSystem(id)`. */
  datatype State = State(designSystem: Option<Held>, loading: bool, error: Option<string>)

  const Initial := State(None, true, None)

  const FetchFailed := "Failed to fetch design system"
  const UpdateFailed := "Failed to update design system"
  const DeleteFailed := "Failed to delete design system"

  /** `fetchDesignSystem`: the loaded design system on success, the message
      on failure; `loading` ends false either way. */
  function Fetch(mode: DataMode, store: M.Store, st: State, id: string, db: Outcome<M.DesignSystemDetail>)
    : (r: State)
    ensures !r.loading
    ensures var out := if mode == Mock then M.GetDesignSystem(store, id) else db;
      && (out.Returned? ==> r.designSystem == Some(Detail(out.value)) && r.error.None?)
      && (out.Threw? ==> r.designSystem == st.designSystem && r.error == Some(MessageOr(out.thrown, "Failed to fetch design system")))
  {
    match Dispatch(mode, store, M.Step(store, M.GetDesignSystem(store, id)), db).outcome
    case Returned(d) => State(Some(Detail(d)), false, None)
    case Threw(t) => st.(loading := false, error := Some(MessageOr(t, FetchFailed)))
  }

  /** The mount effect: an empty id fetches nothing, so the hook stays in its
      initial loading state. */
  function Mount(mode: DataMode, store: M.Store, id: string, db: Outcome<M.DesignSystemDetail>): (r: State)
    ensures id == "" ==> r == Initial && r.loading
    ensures id != "" ==> r == Fetch(mode, store, Initial, id, db) && !r.loading
  {
    if id == "" then Initial else Fetch(mode, store, Initial, id, db)
  }

  /** With the mock backend, mounting on an existing id loads the first
      design system with that id, together with exactly its tokens and
      components. */
  lemma MockMountLoads(store: M.Store, id: string, db: Outcome<M.DesignSystemDetail>, i: nat)
    requires id != "" && M.IsFirstWithId(store.designSystems, M.DesignSystemId, id, i)
    ensures var r := Mount(Mock, store, id, db);
      && !r.loading && r.error.None? && r.designSystem.Some? && r.designSystem.value.Detail?
      && r.designSystem.value.detail.designSystem == store.designSystems[i]
      && r.designSystem.value.detail.tokens == M.GetTokens(store, id)
      && r.designSystem.value.detail.components == M.GetComponents(store, id)
  {
    assert IndexOfId(store.designSystems, M.DesignSystemId, id) == Some(i);
  }

  /** `updateDesignSystem(updates)`: nothing is loaded, nothing happens and
      the promise resolves with nothing; otherwise the loaded design system is
      updated by its id and replaced by the result. */
  function Update(mode: DataMode, store: M.Store, st: State, p: M.DesignSystemPatch, now: string,
                  db: Outcome<M.DesignSystem>): (r: Mutation<State, Option<M.DesignSystem>>)
    ensures st.designSystem.None? ==> r == Mutation(store, st, Returned(None))
    ensures st.designSystem.Some? ==>
      var out := if mode == Mock then M.UpdateDesignSystem(store, st.designSystem.value.Id(), p, now).outcome else db;
      && r.store == (if mode == Mock then M.UpdateDesignSystem(store, st.designSystem.value.Id(), p, now).store else store)
      && (out.Returned? ==> r.state == st.(designSystem := Some(Record(out.value))) && r.completion == Returned(Some(out.value)))
      && (out.Threw? ==> r.state == st.(error := Some(MessageOr(out.thrown, "Failed to update design system")))
                         && r.completion == Threw(out.thrown))
  {
    match st.designSystem
    case None => Mutation(store, st, Returned(None))
    case Some(d) =>
      var call := Dispatch(mode, store, M.UpdateDesignSystem(store, d.Id(), p, now), db);
      match call.outcome
      case Returned(v) => Mutation(call.store, st.(designSystem := Some(Record(v))), Returned(Some(v)))
      case Threw(t) => Mutation(call.store, st.(error := Some(MessageOr(t, UpdateFailed))), Threw(t))
  }

  /** `deleteDesignSystem()`: a no-op when nothing is loaded; otherwise the
      loaded design system is deleted by its id and cleared. */
  function Delete(mode: DataMode, store: M.Store, st: State, db: Outcome<()>): (r: Mutation<State, ()>)
    ensures st.designSystem.None? ==> r == Mutation(store, st, Returned(()))
    ensures st.designSystem.Some? ==>
      var out := if mode == Mock then M.DeleteDesignSystem(store, st.designSystem.value.Id()).outcome else db;
      && r.store == (if mode == Mock then M.DeleteDesignSystem(store, st.designSystem.value.Id()).store else store)
      && r.completion == out
      && (out.Returned? ==> r.state == st.(designSystem := None))
      && (out.Threw? ==> r.state == st.(error := Some(MessageOr(out.thrown, "Failed to delete design system"))))
  {
    match st.designSystem
    case None => Mutation(store, st, Returned(()))
    case Some(d) =>
      var call := Dispatch(mode, store, M.DeleteDesignSystem(store, d.Id()), db);
      match call.outcome
      case Returned(_) => Mutation(call.store, st.(designSystem := None), call.outcome)
      case Threw(t) => Mutation(call.store, st.(error := Some(MessageOr(t, DeleteFailed))), call.outcome)
  }
}

module UseTokens {
  import opened Seqs
  import opened Outcomes
  import opened DataMode
  import opened HookState
  import M = MockData

  type State = ListState<M.Token>

  const FetchFailed := "Failed to fetch tokens"
  const CreateFailed := "Failed to create token"
  const UpdateFailed := "Failed to update token"
  const DeleteFailed := "Failed to delete token"

  /** `fetchTokens`: in mock mode the list becomes the design system's tokens
      in store order. */
  function Fetch(mode: DataMode, store: M.Store, st: State, designSystemId: string, db: Outcome<seq<M.Token>>)
    : (r: State)
    ensures !r.loading
    ensures mode == Mock ==> r.items == M.GetTokens(store, designSystemId) && r.error.None?
    ensures mode == Database && db.Returned? ==> r.items == db.value && r.error.None?
    ensures mode == Database && db.Threw? ==>
      r.items == st.items && r.error == Some(MessageOr(db.thrown, "Failed to fetch tokens"))
  {
    var mock := M.Step(store, Returned(M.GetTokens(store, designSystemId)));
    Fetched(st, Dispatch(mode, store, mock, db).outcome, FetchFailed)
  }

  /** The mount effect: nothing is fetched for an empty design-system id. */
  function Mount(mode: DataMode, store: M.Store, designSystemId: string, db: Outcome<seq<M.Token>>): (r: State)
    ensures designSystemId == "" ==> r == InitialList()
    ensures designSystemId != "" ==> r == Fetch(mode, store, InitialList(), designSystemId, db) && !r.loading
  {
    if designSystemId == "" then InitialList() else Fetch(mode, store, InitialList(), designSystemId, db)
  }

  /** `createToken`. */
  function Create(mode: DataMode, store: M.Store, st: State, input: M.TokenInput,
                  stamp: string, now: string, db: Outcome<M.Token>): (r: Mutation<State, M.Token>)
    ensures r.store == (if mode == Mock then M.CreateToken(store, input, stamp, now).store else store)
    ensures r.completion == (if mode == Mock then M.CreateToken(store, input, stamp, now).outcome else db)
    ensures r.completion.Returned? ==> r.state.items == [r.completion.value] + st.items && r.state.error == st.error
    ensures r.completion.Threw? ==>
      r.state.items == st.items && r.state.error == Some(MessageOr(r.completion.thrown, "Failed to create token"))
  {
    Created(st, Dispatch(mode, store, M.CreateToken(store, input, stamp, now), db), CreateFailed)
  }

  /** `updateToken`. */
  function Update(mode: DataMode, store: M.Store, st: State, id: string, p: M.TokenPatch,
                  now: string, db: Outcome<M.Token>): (r: Mutation<State, M.Token>)
    ensures r.store == (if mode == Mock then M.UpdateToken(store, id, p, now).store else store)
    ensures r.completion == (if mode == Mock then M.UpdateToken(store, id, p, now).outcome else db)
    ensures r.completion.Returned? ==>
      r.state.items == ReplaceWhere(st.items, M.TokenId, id, r.completion.value) && r.state.error == st.error
    ensures r.completion.Threw? ==>
      r.state.items == st.items && r.state.error == Some(MessageOr(r.completion.thrown, "Failed to update token"))
  {
    Updated(st, M.TokenId, id, Dispatch(mode, store, M.UpdateToken(store, id, p, now), db), UpdateFailed)
  }

  /** `deleteToken`. */
  function Delete(mode: DataMode, store: M.Store, st: State, id: string, db: Outcome<()>)
    : (r: Mutation<State, ()>)
    ensures r.store == (if mode == Mock then M.DeleteToken(store, id).store else store)
    ensures r.completion == (if mode == Mock then M.DeleteToken(store, id).outcome else db)
    ensures r.completion.Returned? ==> r.state.items == WithoutId(st.items, M.TokenId, id) && r.state.error == st.error
    ensures r.completion.Threw? ==>
      r.state.items == st.items && r.state.error == Some(MessageOr(r.completion.thrown, "Failed to delete token"))
  {
    Deleted(st, M.TokenId, id, Dispatch(mode, store, M.DeleteToken(store, id), db), DeleteFailed)
  }

  /** In mock mode, a token created for the design system the hook shows
      leads both the local list and a fresh fetch. */
  lemma MockCreateMatchesRefetch(store: M.Store, input: M.TokenInput, stamp: string, now: string,
                                 db: Outcome<M.Token>, dbList: Outcome<seq<M.Token>>)
    ensures var st := Fetch(Mock, store, InitialList(), input.designSystemId, dbList);
      var r := Create(Mock, store, st, input, stamp, now, db);
      r.state.items == Fetch(Mock, r.store, st, input.designSystemId, dbList).items
  {
    M.CreateTokenListsFirst(store, input, stamp, now);
  }
}

module UseComponents {
  import opened Seqs
  import opened Outcomes
  import opened DataMode
  import opened HookState
  import M = MockData

  type State = ListState<M.Component>

  const FetchFailed := "Failed to fetch components"
  const CreateFailed := "Failed to create component"
  const UpdateFailed := "Failed to update component"
  const DeleteFailed := "Failed to delete component"

  /** `fetchComponents`. */
  function Fetch(mode: DataMode, store: M.Store, st: State, designSystemId: string, db: Outcome<seq<M.Component>>)
    : (r: State)
    ensures !r.loading
    ensures mode == Mock ==> r.items == M.GetComponents(store, designSystemId) && r.error.None?
    ensures mode == Database && db.Returned? ==> r.items == db.value && r.error.None?
    ensures mode == Database && db.Threw? ==>
      r.items == st.items && r.error == Some(MessageOr(db.thrown, "Failed to fetch components"))
  {
    var mock := M.Step(store, Returned(M.GetComponents(store, designSystemId)));
    Fetched(st, Dispatch(mode, store, mock, db).outcome, FetchFailed)
  }

  /** The mount effect: nothing is fetched for an empty design-system id. */
  function Mount(mode: DataMode, store: M.Store, designSystemId: string, db: Outcome<seq<M.Component>>): (r: State)
    ensures designSystemId == "" ==> r == InitialList()
    ensures designSystemId != "" ==> r == Fetch(mode, store, InitialList(), designSystemId, db) && !r.loading
  {
    if designSystemId == "" then InitialList() else Fetch(mode, store, InitialList(), designSystemId, db)
  }

  /** `createComponent`. */
  function Create(mode: DataMode, store: M.Store, st: State, input: M.ComponentInput,
                  stamp: string, now: string, db: Outcome<M.Component>): (r: Mutation<State, M.Component>)
    ensures r.store == (if mode == Mock then M.CreateComponent(store, input, stamp, now).store else store)
    ensures r.completion == (if mode == Mock then M.CreateComponent(store, input, stamp, now).outcome else db)
    ensures r.completion.Returned? ==> r.state.items == [r.completion.value] + st.items && r.state.error == st.error
    ensures r.completion.Threw? ==>
      r.state.items == st.items && r.state.error == Some(MessageOr(r.completion.thrown, "Failed to create component"))
  {
    Created(st, Dispatch(mode, store, M.CreateComponent(store, input, stamp, now), db), CreateFailed)
  }

  /** `updateComponent`. */
  function Update(mode: DataMode, store: M.Store, st: State, id: string, p: M.ComponentPatch,
                  now: string, db: Outcome<M.Component>): (r: Mutation<State, M.Component>)
    ensures r.store == (if mode == Mock then M.UpdateComponent(store, id, p, now).store else store)
    ensures r.completion == (if mode == Mock then M.UpdateComponent(store, id, p, now).outcome else db)
    ensures r.completion.Returned? ==>
      r.state.items == ReplaceWhere(st.items, M.ComponentId, id, r.completion.value) && r.state.error == st.error
    ensures r.completion.Threw? ==>
      r.state.items == st.items && r.state.error == Some(MessageOr(r.completion.thrown, "Failed to update component"))
  {
    Updated(st, M.ComponentId, id, Dispatch(mode, store, M.UpdateComponent(store, id, p, now), db), UpdateFailed)
  }

  /** `deleteComponent`. */
  function Delete(mode: DataMode, store: M.Store, st: State, id: string, db: Outcome<()>)
    : (r: Mutation<State, ()>)
    ensures r.store == (if mode == Mock then M.DeleteComponent(store, id).store else store)
    ensures r.completion == (if mode == Mock then M.DeleteComponent(store, id).outcome else db)
    ensures r.completion.Returned? ==> r.state.items == WithoutId(st.items, M.ComponentId, id) && r.state.error == st.error
    ensures r.completion.Threw? ==>
      r.state.items == st.items && r.state.error == Some(MessageOr(r.completion.thrown, "Failed to delete component"))
  {
    Deleted(st, M.ComponentId, id, Dispatch(mode, store, M.DeleteComponent(store, id), db), DeleteFailed)
  }

  /** In mock mode, with unique component ids, dropping a deleted component
      from the fetched list gives what a fresh fetch would list. */
  lemma MockDeleteMatchesRefetch(store: M.Store, designSystemId: string, id: string,
                                 db: Outcome<()>, dbList: Outcome<seq<M.Component>>)
    requires UniqueIds(store.components, M.ComponentId)
    ensures var st := Fetch(Mock, store, InitialList(), designSystemId, dbList);
      var r := Delete(Mock, store, st, id, db);
      r.state.items == Fetch(Mock, r.store, st, designSystemId, dbList).items
  {
    match IndexOfId(store.components, M.ComponentId, id)
    case None =>
    case Some(i) =>
      WithoutIdUnique(store.components, M.ComponentId, id, i);
      FilterCommute(store.components, IdIs(M.ComponentOwner, designSystemId), IdIsNot(M.ComponentId, id));
  }
}
