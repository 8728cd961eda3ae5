/** The projects store (`useProjectsStore`): four independent ordered lists of
    project records, one per source, each read through its own getter and
    replaced wholesale by its own update action. */
module Projects {
  import opened JsValues

  /** Which of the four lists. */
  datatype ListName = Github | Npm | Rendered | Local

  /** The whole state of the store as a value. */
  datatype Lists = Lists(github: seq<Json>, npm: seq<Json>, rendered: seq<Json>, local: seq<Json>)

  const AllLists: set<ListName> := {Github, Npm, Rendered, Local}

  /** Every list starts empty. */
  const Initial: Lists := Lists([], [], [], [])

  function ListOf(s: Lists, w: ListName): seq<Json>
  {
    match w
    case Github => s.github
    case Npm => s.npm
    case Rendered => s.rendered
    case Local => s.local
  }

  /** The state after an update action on list `w`: that list becomes `xs`
      exactly, the other three keep their contents. */
  function WithList(s: Lists, w: ListName, xs: seq<Json>): (r: Lists)
    ensures ListOf(r, w) == xs
    ensures forall v :: v != w ==> ListOf(r, v) == ListOf(s, v)
  {
    match w
    case Github => s.(github := xs)
    case Npm => s.(npm := xs)
    case Rendered => s.(rendered := xs)
    case Local => s.(local := xs)
  }

  // Property names under which the store object exposes each list.

  function StateKey(w: ListName): string
  {
    match w
    case Github => "githubProjects"
    case Npm => "npmProjects"
    case Rendered => "renderedProjects"
    case Local => "localProjects"
  }

  function GetterKey(w: ListName): string
  {
    match w
    case Github => "getGithubProjects"
    case Npm => "getNpmProjects"
    case Rendered => "getRenderedProjects"
    case Local => "getLocalProjects"
  }

  function ActionKey(w: ListName): string
  {
    match w
    case Github => "updateGithubProjects"
    case Npm => "updateNpmProjects"
    case Rendered => "updateRenderedProjects"
    case Local => "updateLocalProjects"
  }

  /** The list a state or getter property name reads, if it is one. */
  function ListReadBy(key: string): (r: Option<ListName>)
    ensures r.Some? ==> key == StateKey(r.value) || key == GetterKey(r.value)
  {
    if key == StateKey(Github) || key == GetterKey(Github) then Some(Github)
    else if key == StateKey(Npm) || key == GetterKey(Npm) then Some(Npm)
    else if key == StateKey(Rendered) || key == GetterKey(Rendered) then Some(Rendered)
    else if key == StateKey(Local) || key == GetterKey(Local) then Some(Local)
    else None
  }

  /** The list an action name updates, if it names one of the four actions. */
  function ListUpdatedBy(name: string): (r: Option<ListName>)
    ensures r.Some? ==> name == ActionKey(r.value)
  {
    if name == ActionKey(Github) then Some(Github)
    else if name == ActionKey(Npm) then Some(Npm)
    else if name == ActionKey(Rendered) then Some(Rendered)
    else if name == ActionKey(Local) then Some(Local)
    else None
  }

  /** Each property name designates exactly one list: reading back the name
      of list `w` gives `w`. */
  lemma KeysDesignateTheirList(w: ListName)
    ensures ListReadBy(StateKey(w)) == Some(w)
    ensures ListReadBy(GetterKey(w)) == Some(w)
    ensures ListUpdatedBy(ActionKey(w)) == Some(w)
    ensures ListUpdatedBy(StateKey(w)).None? && ListUpdatedBy(GetterKey(w)).None?
    ensures ListReadBy(ActionKey(w)).None?
  {
  }

  /** Writing the same list twice with the same value is the same as once. */
  lemma UpdateIdempotent(s: Lists, w: ListName, xs: seq<Json>)
    ensures WithList(WithList(s, w, xs), w, xs) == WithList(s, w, xs)
  {
  }

  /** For one list, the last update wins. */
  lemma LastUpdateWins(s: Lists, w: ListName, xs: seq<Json>, ys: seq<Json>)
    ensures WithList(WithList(s, w, xs), w, ys) == WithList(s, w, ys)
  {
  }

  /** Updates of two different lists are independent of their order. */
  lemma UpdatesOfDistinctListsCommute(s: Lists, v: ListName, w: ListName, xs: seq<Json>, ys: seq<Json>)
    requires v != w
    ensures WithList(WithList(s, v, xs), w, ys) == WithList(WithList(s, w, ys), v, xs)
  {
  }

  class ProjectsStore {
    var githubProjects: seq<Json>
    var npmProjects: seq<Json>
    var renderedProjects: seq<Json>
    var localProjects: seq<Json>

    /** The store's state as a value. */
    function State(): Lists
      reads this
    {
      Lists(githubProjects, npmProjects, renderedProjects, localProjects)
    }

    constructor ()
      ensures State() == Initial
    {
      githubProjects, npmProjects, renderedProjects, localProjects := [], [], [], [];
    }

    function GetRenderedProjects(): (r: seq<Json>)
      reads this
      ensures r == ListOf(State(), Rendered)
    {
      renderedProjects
    }

    function GetLocalProjects(): (r: seq<Json>)
      reads this
      ensures r == ListOf(State(), Local)
    {
      localProjects
    }

    function GetGithubProjects(): (r: seq<Json>)
      reads this
      ensures r == ListOf(State(), Github)
    {
      githubProjects
    }

    function GetNpmProjects(): (r: seq<Json>)
      reads this
      ensures r == ListOf(State(), Npm)
    {
      npmProjects
    }

    method UpdateRenderedProjects(newProjects: seq<Json>)
      modifies this
      ensures State() == WithList(old(State()), Rendered, newProjects)
    {
      renderedProjects := newProjects;
    }

    method UpdateLocalProjects(newProjects: seq<Json>)
      modifies this
      ensures State() == WithList(old(State()), Local, newProjects)
    {
      localProjects := newProjects;
    }

    method UpdateGithubProjects(newProjects: seq<Json>)
      modifies this
      ensures State() == WithList(old(State()), Github, newProjects)
    {
      githubProjects := newProjects;
    }

    method UpdateNpmProjects(newProjects: seq<Json>)
      modifies this
      ensures State() == WithList(old(State()), Npm, newProjects)
    {
      npmProjects := newProjects;
    }
  }
}
