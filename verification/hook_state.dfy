/** The pieces the data hooks of src/hooks/use-design-systems.ts share: the
    choice of backend by data mode, the local list state, and what a fetch or
    a mutation callback does to that state once the backend call has
    resolved or rejected. */
module HookState {
  import opened Seqs
  import opened Outcomes
  import opened DataMode
  import MockData

  /** `{ items, loading, error }` of `useDesignSystems`, `useTokens` and
      `useComponents`. */
  datatype ListState<T> = ListState(items: seq<T>, loading: bool, error: Option<string>)

  /** The state before the first fetch: an empty list, loading. */
  function InitialList<T>(): ListState<T>
  {
    ListState([], true, None)
  }

  /** The effect of one backend call: the mock store afterwards and the call's
      outcome. */
  datatype Call<T> = Call(store: MockData.Store, outcome: Outcome<T>)

  /** `dataMode === 'database' ? db.op(...) : mockDb.op(...)`. In database
      mode the remote outcome is taken and the mock store is not touched; in
      mock mode the mock operation runs on the store. */
  function Dispatch<T>(mode: DataMode, store: MockData.Store, mock: MockData.Step<T>, db: Outcome<T>): (r: Call<T>)
    ensures mode == Database ==> r.store == store && r.outcome == db
    ensures mode == Mock ==> r.store == mock.store && r.outcome == mock.outcome
  {
    match mode
    case Database => Call(store, db)
    case Mock => Call(mock.store, mock.outcome)
  }

  /** What a mutation callback leaves behind: the mock store, the hook state,
      and how the returned promise settles (resolved with a value, or
      rejected with the rethrown error). */
  datatype Mutation<S, T> = Mutation(store: MockData.Store, state: S, completion: Outcome<T>)

  /** The end of a fetch: `loading` is false whatever happened; a resolved
      call replaces the list and leaves no error; a rejected call keeps the
      list and records the message. The error is swallowed, not rethrown. */
  function Fetched<T>(st: ListState<T>, out: Outcome<seq<T>>, fallback: string): (r: ListState<T>)
    ensures !r.loading
    ensures out.Returned? ==> r.items == out.value && r.error.None?
    ensures out.Threw? ==> r.items == st.items && r.error == Some(MessageOr(out.thrown, fallback))
  {
    match out
    case Returned(v) => ListState(v, false, None)
    case Threw(t) => ListState(st.items, false, Some(MessageOr(t, fallback)))
  }

  /** A rejected mutation: the list is kept, the message recorded, and the
      same error rethrown. */
  ghost predicate FailedMutation<T, U>(st: ListState<T>, out: Outcome<U>, fallback: string, r: Mutation<ListState<T>, U>)
    requires out.Threw?
  {
    r.state == st.(error := Some(MessageOr(out.thrown, fallback))) && r.completion == out
  }

  /** `setItems(prev => [created, ...prev])` on success. */
  function Created<T>(st: ListState<T>, call: Call<T>, fallback: string): (r: Mutation<ListState<T>, T>)
    ensures r.store == call.store
    ensures call.outcome.Returned? ==> r.state == st.(items := [call.outcome.value] + st.items)
                                       && r.completion == call.outcome
    ensures call.outcome.Threw? ==> FailedMutation(st, call.outcome, fallback, r)
  {
    match call.outcome
    case Returned(v) => Mutation(call.store, st.(items := [v] + st.items), call.outcome)
    case Threw(t) => Mutation(call.store, st.(error := Some(MessageOr(t, fallback))), call.outcome)
  }

  /** `setItems(prev => prev.map(x => x.id === id ? updated : x))` on success:
      every entry with the id is replaced, the others keep their place. */
  function Updated<T>(st: ListState<T>, idOf: T -> string, id: string, call: Call<T>, fallback: string)
    : (r: Mutation<ListState<T>, T>)
    ensures r.store == call.store
    ensures call.outcome.Returned? ==>
      && |r.state.items| == |st.items|
      && (forall i :: 0 <= i < |st.items| && idOf(st.items[i]) == id ==> r.state.items[i] == call.outcome.value)
      && (forall i :: 0 <= i < |st.items| && idOf(st.items[i]) != id ==> r.state.items[i] == st.items[i])
      && r.state.error == st.error && r.state.loading == st.loading
      && r.completion == call.outcome
    ensures call.outcome.Threw? ==> FailedMutation(st, call.outcome, fallback, r)
  {
    match call.outcome
    case Returned(v) => Mutation(call.store, st.(items := ReplaceWhere(st.items, idOf, id, v)), call.outcome)
    case Threw(t) => Mutation(call.store, st.(error := Some(MessageOr(t, fallback))), call.outcome)
  }

  /** `setItems(prev => prev.filter(x => x.id !== id))` on success: every
      entry with the id goes, the others stay in order. */
  function Deleted<T>(st: ListState<T>, idOf: T -> string, id: string, call: Call<()>, fallback: string)
    : (r: Mutation<ListState<T>, ()>)
    ensures r.store == call.store
    ensures call.outcome.Returned? ==>
      && (forall i :: 0 <= i < |r.state.items| ==> idOf(r.state.items[i]) != id)
      && IsSubsequence(r.state.items, st.items)
      && |r.state.items| == CountWhere(st.items, IdIsNot(idOf, id))
      && r.state.error == st.error && r.state.loading == st.loading
      && r.completion == call.outcome
    ensures call.outcome.Threw? ==> FailedMutation(st, call.outcome, fallback, r)
  {
    match call.outcome
    case Returned(_) =>
      FilterIsSubsequence(st.items, IdIsNot(idOf, id));
      Mutation(call.store, st.(items := WithoutId(st.items, idOf, id)), call.outcome)
    case Threw(t) => Mutation(call.store, st.(error := Some(MessageOr(t, fallback))), call.outcome)
  }

  /** A successful delete keeps every entry with another id. */
  lemma DeletedKeepsOthers<T>(st: ListState<T>, idOf: T -> string, id: string, call: Call<()>, fallback: string, x: T)
    requires call.outcome.Returned? && x in st.items && idOf(x) != id
    ensures x in Deleted(st, idOf, id, call, fallback).state.items
  {
    FilterMembership(st.items, IdIsNot(idOf, id), x);
  }
}
