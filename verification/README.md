# oro.wtf core, modelled in Dafny

oro.wtf is a Next.js design-system builder. This project models the parts of
it that carry logic:

- the in-memory mock database (`mockDb`) that stands in for Supabase;
- the React hooks that pick either the database or the mock and keep a local
  copy of the lists;
- the data-mode switch and its toggle;
- the authentication middleware;
- the two REST routes that validate a body and map the outcome to a status;
- the pure helpers of the projects page, the sidebar and the builder;
- the statement splitter of the schema script.

Everything is written as immutable datatypes and pure functions. The mock
database is a `Store` of three sequences: design systems, tokens and
components. Each operation returns a `Step`, which is the new store plus an
`Outcome`: either the value returned or the error thrown. A hook callback is
a transition from the hook's state and the backend's outcome to a new state.
`Date.now()` and `new Date().toISOString()` become the `stamp` and `now`
parameters. The database's answer, the ORM's answer and the authentication
token become parameters too.

Modules and files:

| file | module(s) | models |
|---|---|---|
| seqs.dfy | Seqs | `filter`, `findIndex`, `splice`, `map` by id, `find` on sequences |
| text.dfy | Text | ASCII `toLowerCase`, `trim`, `startsWith`, `includes`, `split`, `join` |
| outcomes.dfy | Outcomes | thrown values and `err instanceof Error ? err.message : fallback` |
| mock_data.dfy | MockData | src/lib/mock-data.ts |
| hook_state.dfy | HookState | the mode dispatch and list updates shared by the hooks |
| hooks.dfy | UseDesignSystems, UseDesignSystem, UseTokens, UseComponents | src/hooks/use-design-systems.ts |
| data_mode.dfy | DataMode | src/lib/data-mode.tsx and src/components/data-mode-toggle.tsx |
| urls.dfy | Urls | splitting a link into pathname and query string |
| middleware.dfy | Middleware | src/middleware.ts |
| routes.dfy | Api, DesignSystemsRoute, ProjectsRoute | the two `route.ts` handlers and their zod schemas |
| projects_page.dfy | ProjectsPage | src/app/app/projects/page.tsx |
| sidebar.dfy | Sidebar | src/components/app-sidebar.tsx |
| builder.dfy | Builder | the canvas zoom and selection of src/app/app/builder/page.tsx |
| apply_schema.dfy | ApplySchema | the statement splitting of apply-schema.js |

## Model

| member | source | states |
|---|---|---|
| MockData.SeedTokens | src/lib/mock-data.ts:52-66 | Thirteen tokens are seeded. All are filed under `mock-1`, both timestamps are the seed time, and no two share an id. |
| MockData.SeedComponents | src/lib/mock-data.ts:68-72 | Three components are seeded. All are filed under `mock-1`, both timestamps are the seed time, and no two share an id. |
| MockData.SeedCountsAreStale | src/lib/mock-data.ts:4-72 | The stored counts are not an invariant: the seed claims 45 tokens and 12 components for `mock-1`, but only 13 tokens and 3 components carry that id. |
| MockData.GetDesignSystemsIgnoresProject | src/lib/mock-data.ts:76-78 | `getDesignSystems` returns the whole design-system list, whatever project id is passed. |
| MockData.GetTokens | src/lib/mock-data.ts:130-132 | Every returned token belongs to the design system, and as many are returned as the store holds for it. |
| MockData.GetComponents | src/lib/mock-data.ts:179-181 | Every returned component belongs to the design system, and as many are returned as the store holds for it. |
| MockData.GetChildrenExact | src/lib/mock-data.ts:130-132 | The token and component lists are in-order subsequences of the store, and a record is listed iff it is stored and carries the design system's id. |
| MockData.GetDesignSystem | src/lib/mock-data.ts:80-91 | Succeeds iff some design system has the id. It then returns the first one with its own tokens and components and the fixed project and team names. Otherwise it throws "Design system not found". |
| MockData.CreateDesignSystem | src/lib/mock-data.ts:93-105 | The new record goes first in the list. It has id `mock-<stamp>`, both timestamps equal to now, zero counts and the caller's fields. Tokens and components are untouched. |
| MockData.CreateThenGetDesignSystem | src/lib/mock-data.ts:93-105 | Looking up a just-created design system finds exactly that record. |
| MockData.UpdateDesignSystem | src/lib/mock-data.ts:107-117 | A missing id throws "Design system not found" and leaves the store alone. Otherwise the first match is replaced in place: supplied fields overwrite, the others stay, and `updated_at` becomes now. |
| MockData.UpdateDesignSystemIdempotent | src/lib/mock-data.ts:107-117 | Repeating an update that does not change the id gives the same store and result. |
| MockData.EmptyDesignSystemPatchTouchesOnlyTimestamp | src/lib/mock-data.ts:111-115 | An empty patch changes nothing but `updated_at`. |
| MockData.DeleteDesignSystem | src/lib/mock-data.ts:119-127 | A missing id throws and leaves the store alone. Otherwise the first match is spliced out, and no token or component of that id remains. |
| MockData.DeleteDesignSystemCascades | src/lib/mock-data.ts:123-126 | After a delete, the design system has no tokens or components, and every other design system keeps exactly its own, in order. |
| MockData.DeleteThenGetDesignSystemFails | src/lib/mock-data.ts:119-127 | With unique ids, a deleted design system can no longer be fetched. |
| MockData.RefreshTokenCount | src/lib/mock-data.ts:144-147 | Only the first design system with the owner's id gets the new token count. Every other record is unchanged, and a missing owner changes nothing. |
| MockData.RefreshComponentCount | src/lib/mock-data.ts:193-196 | Same as the token count, for components. |
| MockData.CreateToken | src/lib/mock-data.ts:134-150 | The new token goes first, with id `token-<stamp>`, both timestamps now and the caller's fields. Its owner's count becomes the number of tokens filed under it. |
| MockData.CreateTokenListsFirst | src/lib/mock-data.ts:134-150 | The owner's token list afterwards is the new token followed by its previous list. |
| MockData.UpdateToken | src/lib/mock-data.ts:152-162 | A missing id throws "Token not found" and changes nothing. Otherwise the first match is merged in place, and the other collections are untouched. |
| MockData.UpdateTokenIdempotent | src/lib/mock-data.ts:152-162 | Repeating a token update that does not change the id gives the same store and result. |
| MockData.DeleteToken | src/lib/mock-data.ts:164-176 | A missing id throws "Token not found". Otherwise exactly the first match is removed, the list is one shorter, and the owner's count is refreshed. |
| MockData.DeleteTokenShrinksOwner | src/lib/mock-data.ts:164-176 | The deleted token's owner loses exactly one token, and every other design system keeps its token list. |
| MockData.CreateComponent | src/lib/mock-data.ts:183-199 | The new component goes first, with id `comp-<stamp>`, both timestamps now and the caller's fields. Its owner's count becomes the number of components filed under it. |
| MockData.CreateComponentListsFirst | src/lib/mock-data.ts:183-199 | The owner's component list afterwards is the new component followed by its previous list. |
| MockData.UpdateComponent | src/lib/mock-data.ts:201-211 | A missing id throws "Component not found" and changes nothing. Otherwise the first match is merged in place. |
| MockData.UpdateComponentIdempotent | src/lib/mock-data.ts:201-211 | Repeating a component update that does not change the id gives the same store and result. |
| MockData.DeleteComponent | src/lib/mock-data.ts:213-225 | A missing id throws "Component not found". Otherwise exactly the first match is removed, the list is one shorter, and the owner's count is refreshed. |
| MockData.DeleteComponentShrinksOwner | src/lib/mock-data.ts:213-225 | The deleted component's owner loses exactly one component, and every other design system keeps its component list. |
| MockData.CreateDefaultProject | src/lib/mock-data.ts:228-239 | The default project is `mock-project-1`. It is created now, not archived, has no team and is owned by `temp-user-id`. |
| Outcomes.MessageOr | src/hooks/use-design-systems.ts:26 | The recorded message is the error's own message for an `Error`, and the fallback for any other thrown value. |
| HookState.Dispatch | src/hooks/use-design-systems.ts:21-23 | The database mode uses the database's outcome and leaves the mock store alone. The mock mode uses the mock's outcome and new store. |
| HookState.Fetched | src/hooks/use-design-systems.ts:17-30 | A fetch always ends with loading off. On success the list is the data and the error is cleared. On failure the list is kept and the error message recorded, without rethrowing. |
| HookState.Created | src/hooks/use-design-systems.ts:37-42 | A created record is put in front of the list. On failure the list is kept, the error is recorded and rethrown. |
| HookState.Updated | src/hooks/use-design-systems.ts:50-57 | Exactly the entries with the id are replaced. Length, order and all other entries are kept. Failure leaves the list alone and rethrows. |
| HookState.Deleted | src/hooks/use-design-systems.ts:67-71 | No entry with the id remains. The rest is an in-order subsequence of the old list, as long as the number of entries with another id. Failure leaves the list alone and rethrows. |
| HookState.DeletedKeepsOthers | src/hooks/use-design-systems.ts:67 | Every entry with another id survives a delete. |
| UseDesignSystems.Fetch | src/hooks/use-design-systems.ts:17-30 | The mock mode lists the whole store. The database mode takes the database's list, or keeps the old one and records "Failed to fetch design systems" or the error's message. |
| UseDesignSystems.Create | src/hooks/use-design-systems.ts:32-43 | The mode picks the backend. A success is put in front of the local list, and a failure is recorded and rethrown. |
| UseDesignSystems.Update | src/hooks/use-design-systems.ts:45-58 | The mode picks the backend. A success replaces the entries with the id, and a failure is recorded and rethrown. |
| UseDesignSystems.Delete | src/hooks/use-design-systems.ts:60-72 | The mode picks the backend. A success filters the id out of the local list, and a failure is recorded and rethrown. |
| UseDesignSystems.MockMissingIdReportsNotFound | src/hooks/use-design-systems.ts:54-57 | In mock mode, updating or deleting an unknown id records "Design system not found" and changes neither the list nor the store. |
| UseDesignSystems.MockListMirrorsStore | src/hooks/use-design-systems.ts:21-24 | After a mock fetch, the local list equals the store's list. |
| UseDesignSystems.MockCreateKeepsMirror | src/hooks/use-design-systems.ts:32-43 | If the local list held a copy of the store's list, it still equals the store's list after a mock create. |
| UseDesignSystems.MockUpdateKeepsMirror | src/hooks/use-design-systems.ts:45-58 | With unique ids, the local list still equals the store's list after a mock update. |
| UseDesignSystems.MockDeleteKeepsMirror | src/hooks/use-design-systems.ts:60-72 | With unique ids, the local list still equals the store's list after a mock delete. |
| UseDesignSystems.AliasedCreate | src/hooks/use-design-systems.ts:37 | When the local list is the store's own array, a create leaves the list two entries longer than before. |
| UseDesignSystems.AliasedCreateListsTwice | src/hooks/use-design-systems.ts:37 | With that shared array, the new design system is listed twice, and the list no longer equals the store's list. |
| UseDesignSystem.Fetch | src/hooks/use-design-systems.ts:95-108 | Loading ends. On success the whole returned detail is held, with the error cleared. A failure keeps what was held and records the message. |
| UseDesignSystem.Mount | src/hooks/use-design-systems.ts:141-145 | An empty id fetches nothing and stays in the initial loading state. Any other id gives exactly the state of a fetch from the initial state. |
| UseDesignSystem.MockMountLoads | src/hooks/use-design-systems.ts:141-145 | In mock mode, mounting with a stored id holds the first such design system together with exactly its tokens and components, with no error and loading off. |
| UseDesignSystem.Update | src/hooks/use-design-systems.ts:110-123 | Without a loaded design system nothing happens. Otherwise the held one is updated by its id. On success the returned record replaces what was held, and on failure the error is recorded and rethrown. |
| UseDesignSystem.Delete | src/hooks/use-design-systems.ts:125-139 | Without a loaded design system nothing happens. Otherwise it is deleted and cleared on success, and on failure the error is recorded and rethrown. |
| UseTokens.Fetch | src/hooks/use-design-systems.ts:163-176 | The mock mode lists exactly the design system's tokens. The database mode takes the database's list, or keeps the old one and records the error. |
| UseTokens.Mount | src/hooks/use-design-systems.ts:220-224 | An empty design-system id leaves the initial state. Any other id gives exactly the state of a fetch from the initial state. |
| UseTokens.Create | src/hooks/use-design-systems.ts:178-189 | The created token is put in front of the local list, and a failure is recorded and rethrown. |
| UseTokens.Update | src/hooks/use-design-systems.ts:191-204 | The entries with the id are replaced, and a failure is recorded and rethrown. |
| UseTokens.Delete | src/hooks/use-design-systems.ts:206-218 | The id is filtered out of the local list, and a failure is recorded and rethrown. |
| UseTokens.MockCreateMatchesRefetch | src/hooks/use-design-systems.ts:163-189 | In mock mode, fetching and then creating a token gives the same list as fetching again afterwards. |
| UseComponents.Fetch | src/hooks/use-design-systems.ts:243-256 | The mock mode lists exactly the design system's components. The database mode takes the database's list, or keeps the old one and records the error. |
| UseComponents.Mount | src/hooks/use-design-systems.ts:300-304 | An empty design-system id leaves the initial state. Any other id gives exactly the state of a fetch from the initial state. |
| UseComponents.Create | src/hooks/use-design-systems.ts:258-269 | The created component is put in front of the local list, and a failure is recorded and rethrown. |
| UseComponents.Update | src/hooks/use-design-systems.ts:271-284 | The entries with the id are replaced, and a failure is recorded and rethrown. |
| UseComponents.Delete | src/hooks/use-design-systems.ts:286-298 | The id is filtered out of the local list, and a failure is recorded and rethrown. |
| UseComponents.MockDeleteMatchesRefetch | src/hooks/use-design-systems.ts:286-298 | In mock mode, with unique component ids, deleting a component from a freshly fetched list gives exactly what fetching again after the delete lists. |
| DataMode.InitialIsMock | src/lib/data-mode.tsx:17-19 | The mode starts as mock, with the database unavailable and no error. |
| DataMode.CheckConfig | src/lib/data-mode.tsx:21-32 | The database is available iff both config values are non-empty. Available clears the error, and unavailable sets the not-configured message. The mode is kept. |
| DataMode.SetDataMode | src/lib/data-mode.tsx:34-41 | Asking for the database while it is unavailable keeps the mode and sets the cannot-switch error. Any other request sets the mode and clears the error. |
| DataMode.SwitchToMockSucceeds | src/lib/data-mode.tsx:39-40 | Switching to mock always succeeds and clears the error. |
| DataMode.ReplayKeepsSafe | src/lib/data-mode.tsx:34-41 | Through any sequence of requests, database mode implies the database is available, and availability does not change. |
| DataMode.SessionIsSafe | src/lib/data-mode.tsx:17-41 | From start-up, through the config check and any requests, the mode is never database unless both config values are set. |
| DataMode.HandleModeChange | src/components/data-mode-toggle.tsx:11-15 | Asking for the current mode does nothing and shows no toast. Any other mode is forwarded and announced as "Switched to Database data" or "Switched to Mock data". |
| DataMode.View | src/components/data-mode-toggle.tsx:17-52 | When unavailable, both buttons are disabled and Mock is shown selected. When available, both are enabled and exactly the current mode's button is highlighted. |
| DataMode.ClickToastIsTruthful | src/components/data-mode-toggle.tsx:11-30 | A toast appears only when the mode really changed to the clicked one. When unavailable, a click changes nothing. |
| DataMode.ClickBackAndForth | src/components/data-mode-toggle.tsx:11-15 | When available, clicking the other mode and then the original one comes back to the original mode. |
| Urls.PathOf | src/middleware.ts:21 | The pathname is the part of a link before its first `?`, and contains no `?`. |
| Urls.QueryOf | src/middleware.ts:21 | The query is what follows the first `?`, and is absent without one. |
| Urls.PathAndQueryRecompose | src/middleware.ts:21 | A link is its pathname, then `?` and the query when there is one. |
| Urls.BuildThenSplit | src/components/app-sidebar.tsx:63 | Joining a `?`-free path and a query with `?` splits back into exactly that path and query. |
| Middleware.Decide | src/middleware.ts:5-26 | Auth pages pass for anonymous users and send signed-in users to `/app`. Other paths redirect iff the user is anonymous and the path starts with `/app`, and then to `/auth/signin?callbackUrl=<path>`. |
| Middleware.Handle | src/middleware.ts:28-30 | Paths outside the matcher always pass, and only matched paths are ever redirected. |
| Middleware.MatchedPathsSplit | src/middleware.ts:28-30 | A matched path is an auth page iff it is exactly `/auth/signin` or `/auth/signup`, and otherwise starts with `/app`. |
| Middleware.AccessControl | src/middleware.ts:8-23 | On matched paths, signed-in users are redirected exactly from the two auth pages. Anonymous users are redirected exactly from the app pages, to sign-in with the path as callback. |
| Middleware.RedirectSettles | src/middleware.ts:12-25 | Following a redirect reaches a page the middleware lets through, so there is no redirect loop. |
| Middleware.CallbackCarriesPath | src/middleware.ts:19-23 | The sign-in redirect's query string is exactly `callbackUrl=` followed by the requested path. |
| Middleware.MatcherNarrowsAppPrefix | src/middleware.ts:19-30 | `/apple` passes the `startsWith("/app")` test but is outside the matcher, so it is let through. |
| Api.RequiredString | src/app/api/design-systems/route.ts:8 | A required string field is accepted iff it is present and a string. |
| Api.OptionalString | src/app/api/design-systems/route.ts:9-10 | An optional string is accepted when absent or a string, and rejected for any other value. |
| Api.BooleanOr | src/app/api/design-systems/route.ts:11 | A defaulted boolean takes the default when absent, the value when boolean, and is rejected otherwise. |
| Api.StringOr | src/app/api/design-systems/route.ts:12 | A defaulted string takes the default when absent, the value when a string, and is rejected otherwise. |
| Api.Post | src/app/api/design-systems/route.ts:46-99 | A valid body that is stored gives 201 with the row. A body that is not an object, or fails validation, gives 400 with the invalid-data message. Anything else, including unparsable JSON, gives 500 with the failure message. `success` holds iff the status is 201. |
| Api.Get | src/app/api/design-systems/route.ts:17-43 | A successful query gives 200 with the rows, and a failed one gives 500 with the failure message. |
| Api.StatusesAreKnown | src/app/api/design-systems/route.ts:73-98 | POST only ever answers 201, 400 or 500, and carries data exactly when it succeeds. |
| DesignSystemsRoute.Parse | src/app/api/design-systems/route.ts:7-14 | A body is rejected iff a field has the wrong type, the name is not 1 to 100 characters, or the description is over 500. Accepted values are taken over, with `isPublic` defaulting to false and `version` to `1.0.0`. |
| DesignSystemsRoute.ParseEncode | src/app/api/design-systems/route.ts:7-14 | Encoding an input as a body and validating it gives the input back iff it meets the constraints, and a rejection otherwise. |
| DesignSystemsRoute.ParseDefaults | src/app/api/design-systems/route.ts:11-12 | A body with only a valid name and a project id gets `isPublic` false, version `1.0.0` and no description or team. |
| DesignSystemsRoute.ParseIgnoresUnknownKeys | src/app/api/design-systems/route.ts:7-14 | Keys outside the schema do not affect validation. |
| DesignSystemsRoute.Create | src/app/api/design-systems/route.ts:46-99 | POST stores the validated fields with creator `temp-user-id`. It answers 201, 400 "Invalid design system data" or 500 "Failed to create design system" by the same rule as `Api.Post`. |
| DesignSystemsRoute.MalformedBodyIsServerError | src/app/api/design-systems/route.ts:48 | A body that is not JSON is not a validation error, and gives 500. |
| DesignSystemsRoute.List | src/app/api/design-systems/route.ts:17-43 | GET answers 200 with the rows, or 500 "Failed to fetch design systems". |
| DesignSystemsRoute.CreateAsWritten | src/app/api/design-systems/route.ts:4-99 | As written, POST never creates: a schema error gives 400, and every other body, valid ones included, gives 500 "Failed to create design system". |
| DesignSystemsRoute.ListAsWritten | src/app/api/design-systems/route.ts:4-43 | As written, GET always answers 500 "Failed to fetch design systems". |
| DesignSystemsRoute.AsWrittenRejectsValidBody | src/app/api/design-systems/route.ts:4-99 | A valid body that the intended handler answers 201 is answered 500 as written. |
| ProjectsRoute.Parse | src/app/api/projects/route.ts:7-11 | A body is rejected iff a field has the wrong type, the name is not 1 to 100 characters, or the description is over 500. Otherwise the values are taken over. |
| ProjectsRoute.ParseEncode | src/app/api/projects/route.ts:7-11 | Encoding and validating gives the input back iff it meets the constraints. |
| ProjectsRoute.NameOutOfRangeRejected | src/app/api/projects/route.ts:8 | An empty name, or one over 100 characters, is always rejected. |
| ProjectsRoute.Create | src/app/api/projects/route.ts:40-90 | POST stores the validated fields with creator `temp-user-id`. It answers 201, 400 "Invalid project data" or 500 "Failed to create project". |
| ProjectsRoute.List | src/app/api/projects/route.ts:13-38 | GET answers 200 with the rows, or 500 "Failed to fetch projects". |
| ProjectsRoute.CreateAsWritten | src/app/api/projects/route.ts:4-90 | As written, POST never creates: a schema error gives 400, and every other body, valid ones included, gives 500 "Failed to create project". |
| ProjectsRoute.ListAsWritten | src/app/api/projects/route.ts:4-38 | As written, GET always answers 500 "Failed to fetch projects". |
| ProjectsRoute.AsWrittenRejectsValidBody | src/app/api/projects/route.ts:4-90 | A valid body that the intended handler answers 201 is answered 500 as written. |
| ProjectsPage.FilteredProjects | src/app/app/projects/page.tsx:117-123 | Every shown project matches both the search and the status filter, and no more projects are shown than there are. |
| ProjectsPage.FilteredProjectsExact | src/app/app/projects/page.tsx:117-123 | The shown list is an in-order subsequence of the projects. A project is shown iff its lower-cased name or description contains the lower-cased query and the filter is "all" or its status. |
| ProjectsPage.SearchIgnoresQueryCase | src/app/app/projects/page.tsx:119-120 | Lower-casing the query first does not change what matches. |
| ProjectsPage.EmptyQueryShowsAll | src/app/app/projects/page.tsx:117-123 | An empty query with the "all" filter shows every project, in order. |
| ProjectsPage.StatusLabel | src/app/app/projects/page.tsx:170 | The filter button reads "All" for the "all" filter, and the status itself otherwise. |
| ProjectsPage.StatusColor | src/app/app/projects/page.tsx:125-136 | Active, draft and archived get their own classes, and a status gets the default classes iff it is none of them. |
| ProjectsPage.StatusColorSeparatesKnown | src/app/app/projects/page.tsx:125-136 | Two different known statuses never get the same badge. |
| ProjectsPage.VisibleAvatars | src/app/app/projects/page.tsx:267 | At most three avatars are shown: the first ones, or all of them when there are three or fewer. |
| ProjectsPage.OverflowBadge | src/app/app/projects/page.tsx:278-282 | The "+N" badge appears iff there are more than three collaborators. |
| ProjectsPage.AvatarsAccountForAll | src/app/app/projects/page.tsx:267-282 | The avatars plus the badge's N count every collaborator exactly once. |
| ProjectsPage.Initials | src/app/app/projects/page.tsx:271-274 | The avatar fallback contains no space and is no longer than the name. |
| ProjectsPage.InitialsOfTwoWords | src/app/app/projects/page.tsx:271-274 | A name of two words gives their two first letters. |
| ProjectsPage.JoinInitialsOfNonEmpty | src/app/app/projects/page.tsx:273 | When no part is empty, each part contributes exactly its first letter, in order. |
| ProjectsPage.InitialsOfWords | src/app/app/projects/page.tsx:271-274 | Any number of non-empty, space-free words joined by single spaces give one initial per word, in order. |
| ProjectsPage.EmptyStateView | src/app/app/projects/page.tsx:388-406 | The empty panel appears iff nothing is shown. Its hint depends on whether there is a query, and the create button appears iff the query is empty. |
| ProjectsPage.SeedNeverEmptyWithoutQuery | src/app/app/projects/page.tsx:33-123 | With the page's own projects, no query and any of the four offered filters, something is always shown. |
| Sidebar.Href | src/components/app-sidebar.tsx:62-64 | Without a (non-empty) design system id, or for the dashboard, the link is the plain href. Otherwise it is the href with `?designSystemId=<id>`. |
| Sidebar.NavigationHrefsArePlain | src/components/app-sidebar.tsx:17-43 | No navigation href contains a `?`. |
| Sidebar.HrefSplits | src/components/app-sidebar.tsx:62-64 | A link's pathname is the item's href. Its query is exactly `designSystemId=<id>` when an id is carried, and absent otherwise. |
| Sidebar.HrefRoundTrip | src/components/app-sidebar.tsx:17-64 | For each of the five items, in order, the link leads back to the item's page. Only the four non-dashboard items carry the selected design system. |
| Sidebar.FollowingLinkHighlightsIt | src/components/app-sidebar.tsx:62-72 | Following an item's link highlights exactly that item. |
| Sidebar.AtMostOneActive | src/components/app-sidebar.tsx:69-72 | At most one item is highlighted for any pathname. |
| Builder.ZoomIn | src/app/app/builder/page.tsx:125 | Zoom in adds 25, capped at 200. |
| Builder.ZoomOut | src/app/app/builder/page.tsx:121 | Zoom out subtracts 25, floored at 25. |
| Builder.ClickKeepsValid | src/app/app/builder/page.tsx:121-125 | Each button keeps the zoom a multiple of 25 within 25 to 200. |
| Builder.ClicksKeepValid | src/app/app/builder/page.tsx:121-125 | Any sequence of clicks keeps a valid zoom valid. |
| Builder.SessionZoomIsValid | src/app/app/builder/page.tsx:64 | From the initial 100, the zoom is always a multiple of 25 within 25 to 200. |
| Builder.ClampsAreNoOps | src/app/app/builder/page.tsx:121-125 | Zooming out at 25 and in at 200 changes nothing. |
| Builder.ZoomInOutInverse | src/app/app/builder/page.tsx:121-125 | Away from the bounds, zoom in and zoom out undo each other. |
| Builder.EveryValidZoomReachable | src/app/app/builder/page.tsx:64 | Every multiple of 25 from 25 to 200 can be reached from 100. |
| Builder.LastPick | src/app/app/builder/page.tsx:155-180 | The last element picked is one the session picked. Without one, every action was a zoom click. |
| Builder.RunSeparates | src/app/app/builder/page.tsx:63-180 | Zoom and selection do not interfere. The zoom is what the zoom clicks alone give. The selection is the last element picked, or the previous one if none was. |
| Builder.CanvasSessionWellFormed | src/app/app/builder/page.tsx:63-180 | From the opened canvas, with "button-1" selected and zoom 100, any session keeps the zoom valid and highlights exactly one element. |
| ApplySchema.Statements | apply-schema.js:22-25 | Every statement is non-empty, does not start with `--`, contains no `;` and has no surrounding whitespace. |
| ApplySchema.TrimAll | apply-schema.js:24 | Each chunk is trimmed, in place. |
| ApplySchema.SplitStatements | apply-schema.js:22-25 | The loop over the `;`-chunks builds exactly the filtered, trimmed pieces, in order. |
| ApplySchema.StatementsOfJoined | apply-schema.js:22-25 | Joining clean, kept statements with `;` and splitting again gives the same statements. |
| ApplySchema.Executed | apply-schema.js:27-28 | Only statements whose trimmed text is non-empty are sent. |
| ApplySchema.ExecutesEveryStatement | apply-schema.js:28 | The `statement.trim()` check never skips a statement. |
| ApplySchema.CommentLedPieceDropped | apply-schema.js:25 | A chunk made of a `--` comment line followed by SQL produces no statement at all. |
| ApplySchema.CorrectedStatements | apply-schema.js:22-25 | With comment lines stripped before filtering, every statement is still non-empty and not comment-led. |
| ApplySchema.CorrectedStatementsAreClean | apply-schema.js:22-25 | The corrected statements contain no `;` and have no surrounding whitespace. |
| ApplySchema.CorrectedKeepsStatementAfterComment | apply-schema.js:22-25 | The corrected splitter keeps the SQL that follows a leading comment line. |
| ApplySchema.CorrectedAgreesWithoutComments | apply-schema.js:22-25 | On schemas where no chunk starts with a comment, the corrected splitter gives exactly the original's statements. |

## Left out

- src/lib/db.ts is not part of this model beyond its record shapes. It holds the Supabase queries, their ordering and the realtime subscriptions. Their outcomes are parameters of the hooks.
- The persistence calls of the two routes are reduced to a stored row or a failure (`Stored`), and the `include` relations are not modelled. As written, both routes call `prisma.designSystem` or `prisma.project` on the default export of src/lib/db.ts, which has neither member, so every call throws. `CreateAsWritten` and `ListAsWritten` model that. `Create` and `List` take the store's outcome as a parameter and model the intended handlers.
- `getToken` in the middleware is an outside call. Its result is the `authenticated` parameter.
- File reading, the `exec_sql` calls and the logging of apply-schema.js are not modelled. Only the text handling is. The schema file is an input.
- React rendering, `useEffect` scheduling, asynchronous interleaving of callbacks, toasts and styling are not modelled. Each callback is one atomic transition over a given backend outcome.
- The clock and the id generator are parameters (`now`, `stamp`). Two creates in the same millisecond would share an id. The model lets the caller choose the stamps and does not rule this out.
- `toLowerCase` and `trim` are modelled over ASCII letters and the ASCII whitespace characters. Unicode case mapping and the other Unicode spaces are left out.
- DesignSystemsRoute.Parse and ProjectsRoute.Parse count a name's length in characters. zod counts UTF-16 code units, so the two differ for characters outside the Basic Multilingual Plane.
- Component `props` are kept as an opaque string-to-string map. Nested values are not modelled.
- The builder page is modelled only through its zoom level and its selection of the three canvas elements. The Inspector's title is not modelled; it is the selected id with its first `-` turned into a space and each word capitalised. The Undo and Redo buttons have no handlers, and the layers, properties and canvas are static markup.
- The static and marketing pages (home, help, docs, dashboard, tokens, preview, export, forgot-password) and the layouts hold no logic beyond constant data and display.
- Middleware.Handle approximates Next.js matcher semantics: `/app` and paths under `/app/`, plus the two auth paths exactly. Trailing slashes and locale prefixes are not modelled.
- Links are plain strings. Neither the sidebar nor the middleware URL-encodes the id or the path, and neither does the model.
- The projects page's grid/list view mode, the dropdown and the rest of its markup are not modelled. Only what decides which projects, badges and avatars appear is.
- The seed records' timestamps (now, one day ago, three days ago) are modelled as values of a given seed clock, not computed from a date.
- The mock store and the hooks' lists are values. In the source, the mock's arrays and records are shared with whatever a hook holds. Only one effect of that sharing is modelled: the double entry after a create (see Findings). The other in-place writes through the mock are not modelled as visible in a mounted list. These are the count refreshes (src/lib/mock-data.ts:146, 174, 195, 223), the splice of a deleted design system (:123) and the replacement of an updated one (:111).
- ProjectsPage.Initials: takes `n[0]` as a character. In the source it is a UTF-16 code unit, so a word starting with a character outside the Basic Multilingual Plane gives half a surrogate pair.

## Findings

| source | as written | input that shows it | evidently intended | confidence | as-written member | corrected member |
|---|---|---|---|---|---|---|
| src/hooks/use-design-systems.ts:37 | In mock mode `getDesignSystems` returns the store's own array (src/lib/mock-data.ts:77), and the hook keeps it as its state. `createDesignSystem` then `unshift`s the new record into that array (src/lib/mock-data.ts:103), and the hook also prepends it. | Fetch in mock mode, then create any design system: the list shows the new record twice. | The local list shows each record once and mirrors the store, as it does when the mock returns a copy. | medium, not executed | UseDesignSystems.AliasedCreateListsTwice | UseDesignSystems.MockCreateKeepsMirror |
| src/app/api/design-systems/route.ts:4 | `import prisma from '@/lib/db'` binds the default export of src/lib/db.ts (src/lib/db.ts:88, 485). That object has no `designSystem` member, so `prisma.designSystem.findMany` and `.create` throw a `TypeError` inside the `try`. | `POST` with `{"name":"Kit","projectId":"p1"}`: 500 "Failed to create design system". Any `GET`: 500. | A valid body is stored and answered 201, and `GET` lists the rows. | high, not executed | DesignSystemsRoute.AsWrittenRejectsValidBody | DesignSystemsRoute.Create |
| src/app/api/projects/route.ts:4 | The same import. The default export has no `project` member, so `prisma.project.findMany` and `.create` throw. | `POST` with `{"name":"Default Project"}`: 500 "Failed to create project". Any `GET`: 500. | A valid body is stored and answered 201, and `GET` lists the rows. | high, not executed | ProjectsRoute.AsWrittenRejectsValidBody | ProjectsRoute.Create |
| apply-schema.js:25 | The chunks are trimmed and then dropped when they start with `--`, so a `;`-chunk that opens with a comment line loses the SQL that follows the comment. | `"-- users\nCREATE TABLE users (id int)"`: no statement is executed. | Only comment text is dropped. The statement after the comment line is executed. | medium, not executed | ApplySchema.CommentLedPieceDropped | ApplySchema.CorrectedKeepsStatementAfterComment |
