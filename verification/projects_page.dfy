/** The projects overview of src/app/app/projects/page.tsx: a fixed list of
    projects, narrowed by a search query and a status filter, each card
    showing a status badge and at most three collaborator avatars. */
module ProjectsPage {
  import opened Seqs
  import opened Text

  datatype Collaborator = Collaborator(name: string, avatar: string)

  datatype Project = Project(
    id: nat, name: string, description: string, thumbnail: string, lastModified: string,
    tokens: nat, components: nat, status: string, collaborators: seq<Collaborator>)

  /** The filter value that lets every status through. */
  const AllStatuses := "all"

  /** The page's project list. */
  const Projects: seq<Project> := [
    Project(1, "E-commerce UI Kit", "Complete design system for online stores with 45+ components",
            "/placeholder.svg?height=200&width=300", "2 hours ago", 45, 23, "active",
            [Collaborator("John Doe", "/placeholder.svg"), Collaborator("Jane Smith", "/placeholder.svg")]),
    Project(2, "Dashboard Components", "Admin dashboard design system with data visualization components",
            "/placeholder.svg?height=200&width=300", "1 day ago", 32, 18, "active",
            [Collaborator("Mike Johnson", "/placeholder.svg")]),
    Project(3, "Mobile App Design", "iOS and Android component library with native feel",
            "/placeholder.svg?height=200&width=300", "3 days ago", 28, 15, "draft",
            [Collaborator("Sarah Wilson", "/placeholder.svg"), Collaborator("Tom Brown", "/placeholder.svg"),
             Collaborator("Lisa Davis", "/placeholder.svg")]),
    Project(4, "Marketing Website", "Landing page and marketing components for SaaS products",
            "/placeholder.svg?height=200&width=300", "1 week ago", 22, 12, "archived",
            [Collaborator("Alex Chen", "/placeholder.svg")]),
    Project(5, "Design System v2", "Next generation design system with advanced theming",
            "/placeholder.svg?height=200&width=300", "2 weeks ago", 67, 34, "active",
            [Collaborator("Emma Taylor", "/placeholder.svg"), Collaborator("David Lee", "/placeholder.svg")]),
    Project(6, "Component Library", "Reusable components for internal tools and applications",
            "/placeholder.svg?height=200&width=300", "3 weeks ago", 38, 21, "draft",
            [Collaborator("Ryan Garcia", "/placeholder.svg")])
  ]

  // ---------------------------------------------------------------------
  // Search and status filter

  /** The lower-cased name or description contains the lower-cased query. */
  predicate MatchesSearch(p: Project, query: string)
  {
    Contains(ToLower(p.name), ToLower(query)) || Contains(ToLower(p.description), ToLower(query))
  }

  predicate MatchesStatus(p: Project, statusFilter: string)
  {
    statusFilter == AllStatuses || p.status == statusFilter
  }

  function Shown(query: string, statusFilter: string): Project -> bool
  {
    p => MatchesSearch(p, query) && MatchesStatus(p, statusFilter)
  }

  /** `filteredProjects`. */
  function FilteredProjects(projects: seq<Project>, query: string, statusFilter: string): (r: seq<Project>)
    ensures |r| <= |projects|
    ensures forall i :: 0 <= i < |r| ==> MatchesSearch(r[i], query) && MatchesStatus(r[i], statusFilter)
  {
    Filter(projects, Shown(query, statusFilter))
  }

  /** The shown projects keep their order, and a project is shown iff it
      matches both the search and the status filter. */
  lemma FilteredProjectsExact(projects: seq<Project>, query: string, statusFilter: string, p: Project)
    ensures IsSubsequence(FilteredProjects(projects, query, statusFilter), projects)
    ensures p in FilteredProjects(projects, query, statusFilter) <==>
      p in projects && MatchesSearch(p, query) && MatchesStatus(p, statusFilter)
  {
    FilterIsSubsequence(projects, Shown(query, statusFilter));
    FilterMembership(projects, Shown(query, statusFilter), p);
  }

  lemma ToLowerIdempotent(s: string)
    ensures ToLower(ToLower(s)) == ToLower(s)
  {
  }

  /** The search ignores the case of the query. */
  lemma SearchIgnoresQueryCase(p: Project, query: string)
    ensures MatchesSearch(p, ToLower(query)) <==> MatchesSearch(p, query)
  {
    ToLowerIdempotent(query);
  }

  /** With an empty query and the "all" filter every project is shown. */
  lemma EmptyQueryShowsAll(projects: seq<Project>)
    ensures FilteredProjects(projects, "", AllStatuses) == projects
  {
    forall i | 0 <= i < |projects|
      ensures Shown("", AllStatuses)(projects[i])
    {
      ContainsEmpty(ToLower(projects[i].name));
    }
    FilterKeepsAll(projects, Shown("", AllStatuses));
  }

  /** The label of the filter button. */
  function StatusLabel(statusFilter: string): (r: string)
    ensures statusFilter == AllStatuses ==> r == "All"
    ensures statusFilter != AllStatuses ==> r == statusFilter
  {
    if statusFilter == AllStatuses then "All" else statusFilter
  }

  // ---------------------------------------------------------------------
  // Status badge

  const ActiveClass := "bg-green-100 text-green-800 dark:bg-green-900 dark:text-green-300"
  const DraftClass := "bg-yellow-100 text-yellow-800 dark:bg-yellow-900 dark:text-yellow-300"
  const ArchivedClass := "bg-gray-100 text-gray-800 dark:bg-gray-900 dark:text-gray-300"
  const DefaultClass := "bg-gray-100 text-gray-800"

  predicate KnownStatus(status: string)
  {
    status == "active" || status == "draft" || status == "archived"
  }

  /** `getStatusColor`: each known status has its own classes; every other
      status falls back to the default, which no known status gets. */
  function StatusColor(status: string): (r: string)
    ensures status == "active" ==> r == ActiveClass
    ensures status == "draft" ==> r == DraftClass
    ensures status == "archived" ==> r == ArchivedClass
    ensures r == DefaultClass <==> !KnownStatus(status)
  {
    match status
    case "active" => ActiveClass
    case "draft" => DraftClass
    case "archived" => ArchivedClass
    case _ => DefaultClass
  }

  /** The three known statuses are told apart by their badge. */
  lemma StatusColorSeparatesKnown(a: string, b: string)
    requires KnownStatus(a) && KnownStatus(b) && a != b
    ensures StatusColor(a) != StatusColor(b)
  {
    assert |ArchivedClass| < |ActiveClass| < |DraftClass|;
  }

  // ---------------------------------------------------------------------
  // Collaborator avatars

  const MaxAvatars := 3

  /** `collaborators.slice(0, 3)`. */
  function VisibleAvatars(cs: seq<Collaborator>): (r: seq<Collaborator>)
    ensures |r| <= MaxAvatars && |r| <= |cs|
    ensures r == cs[..|r|]
    ensures |cs| <= MaxAvatars ==> r == cs
  {
    if |cs| <= MaxAvatars then cs else cs[..MaxAvatars]
  }

  /** The "+N" badge, shown iff there are more than three collaborators. */
  function OverflowBadge(cs: seq<Collaborator>): (r: Option<nat>)
    ensures r.Some? <==> |cs| > MaxAvatars
  {
    if |cs| > MaxAvatars then Some(|cs| - MaxAvatars) else None
  }

  /** Avatars and badge together account for every collaborator exactly
      once. */
  lemma AvatarsAccountForAll(cs: seq<Collaborator>)
    ensures |VisibleAvatars(cs)| + (if OverflowBadge(cs).Some? then OverflowBadge(cs).value else 0) == |cs|
    ensures OverflowBadge(cs).Some? ==> OverflowBadge(cs).value >= 1 && |VisibleAvatars(cs)| == MaxAvatars
  {
  }

  /** The first character of a name part; an empty part (from a doubled
      space) gives `undefined`, which `join` renders as nothing. */
  function InitialOf(part: string): (r: string)
    ensures |r| <= 1
    ensures |part| > 0 ==> r == [part[0]]
  {
    if |part| == 0 then "" else [part[0]]
  }

  function JoinInitials(parts: seq<string>): (r: string)
    ensures |r| <= |parts|
  {
    if |parts| == 0 then "" else InitialOf(parts[0]) + JoinInitials(parts[1..])
  }

  /** The avatar fallback: `name.split(" ").map(n => n[0]).join("")`. */
  function Initials(name: string): (r: string)
    ensures ' ' !in r
    ensures |r| <= |name|
  {
    InitialsHaveNoSpace(Split(name, ' '));
    SplitPiecesBound(name, ' ');
    JoinInitials(Split(name, ' '))
  }

  lemma {:induction false} InitialsHaveNoSpace(parts: seq<string>)
    requires forall k :: 0 <= k < |parts| ==> ' ' !in parts[k]
    ensures ' ' !in JoinInitials(parts)
    decreases |parts|
  {
    if |parts| > 0 {
      InitialsHaveNoSpace(parts[1..]);
    }
  }

  /** Splitting at most produces one more piece than there are separators,
      so never more pieces than characters plus one; the initials of a name
      are at most as long as the name. */
  lemma {:induction false} SplitPiecesBound(s: string, d: char)
    ensures |Split(s, d)| <= |s| + 1
    ensures |JoinInitials(Split(s, d))| <= |s|
    decreases |s|
  {
    if |s| > 0 {
      SplitPiecesBound(s[1..], d);
      var rest := Split(s[1..], d);
      if s[0] == d {
        assert Split(s, d) == [""] + rest;
        assert ([""] + rest)[1..] == rest;
      } else {
        var r := [[s[0]] + rest[0]] + rest[1..];
        assert Split(s, d) == r;
        assert r[1..] == rest[1..];
        assert JoinInitials(rest) == InitialOf(rest[0]) + JoinInitials(rest[1..]);
      }
    }
  }

  /** A two-word name gives the two first letters. */
  lemma InitialsOfTwoWords(first: string, last: string)
    requires |first| > 0 && |last| > 0 && ' ' !in first && ' ' !in last
    ensures Initials(first + " " + last) == [first[0], last[0]]
  {
    SplitCons(first, last, ' ');
    SplitWithout(last, ' ');
    assert first + " " + last == first + [' '] + last;
    assert [first] + [last] == [first, last];
    assert [first, last][1..] == [last];
    assert JoinInitials([last]) == [last[0]] + JoinInitials([]);
    assert JoinInitials([first, last]) == [first[0]] + JoinInitials([last]);
  }

  /** When no part is empty, each part gives exactly its first letter. */
  lemma {:induction false} JoinInitialsOfNonEmpty(parts: seq<string>)
    requires forall k :: 0 <= k < |parts| ==> |parts[k]| > 0
    ensures JoinInitials(parts) == seq(|parts|, i requires 0 <= i < |parts| => parts[i][0])
    decreases |parts|
  {
    if |parts| > 0 {
      JoinInitialsOfNonEmpty(parts[1..]);
    }
  }

  /** Any number of non-empty words joined by single spaces gives one
      initial per word, in order. */
  lemma InitialsOfWords(ws: seq<string>)
    requires |ws| >= 1
    requires forall k :: 0 <= k < |ws| ==> |ws[k]| > 0 && ' ' !in ws[k]
    ensures Initials(Join(ws, ' ')) == seq(|ws|, i requires 0 <= i < |ws| => ws[i][0])
  {
    SplitJoin(ws, ' ');
    JoinInitialsOfNonEmpty(ws);
  }

  // ---------------------------------------------------------------------
  // Empty state

  datatype EmptyState = EmptyState(hint: string, showCreate: bool)

  /** The "No projects found" panel: shown iff nothing is listed; the
      create button only when there is no search query. */
  function EmptyStateView(query: string, filtered: seq<Project>): (r: Option<EmptyState>)
    ensures r.Some? <==> |filtered| == 0
    ensures r.Some? ==> (r.value.showCreate <==> query == "")
    ensures r.Some? && query != "" ==> r.value.hint == "Try adjusting your search terms"
    ensures r.Some? && query == "" ==> r.value.hint == "Create your first design system project"
  {
    if |filtered| != 0 then None
    else if query != "" then Some(EmptyState("Try adjusting your search terms", false))
    else Some(EmptyState("Create your first design system project", true))
  }

  /** With the page's own projects, the empty state never offers the create
      button: it appears only with a status that no listed project has. */
  lemma SeedNeverEmptyWithoutQuery(statusFilter: string)
    requires statusFilter == AllStatuses || statusFilter == "active" || statusFilter == "draft" || statusFilter == "archived"
    ensures EmptyStateView("", FilteredProjects(Projects, "", statusFilter)).None?
  {
    var k := if statusFilter == "draft" then 2 else if statusFilter == "archived" then 3 else 0;
    ContainsEmpty(ToLower(Projects[k].name));
    assert Shown("", statusFilter)(Projects[k]);
    FilterMembership(Projects, Shown("", statusFilter), Projects[k]);
  }
}
