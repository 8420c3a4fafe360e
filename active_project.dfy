/**
 The active-project effect of the references page: once the organisation's
 projects are loaded, resolve the project named in the URL and publish either
 the fallback value or the project with its collaborators flattened into one
 list, editors first.
 */
module ActiveProject {
  import opened ProjectTree

  const EDITOR: string := "EDITOR"
  const VIEWER: string := "VIEWER"

  /** A parsed user record with the role tag the page adds to it. */
  datatype Collaborator<V> = Collaborator(user: V, role: string)

  datatype ProjectValues<V> = ProjectValues(
    collaborators: seq<Collaborator<V>>,
    projectID: int,
    projectName: string,
    isPublic: bool)

  /** The value handed to `setActiveProject`. When no project matches, the code
      passes `{ DEFAULT_PROJECT_VALUES }`: an object whose single key
      `DEFAULT_PROJECT_VALUES` holds the defaults, which are not spread into
      it. `WrappedDefaults` stands for that object. */
  datatype ActiveProjectValue<V> = WrappedDefaults | Resolved(values: ProjectValues<V>)

  /** `users.map(raw => ({ ...parse(raw), role }))`. */
  function Tagged<U, V>(users: seq<U>, parse: U -> V, role: string): (r: seq<Collaborator<V>>)
    ensures |r| == |users|
    ensures forall i :: 0 <= i < |users| ==> r[i] == Collaborator(parse(users[i]), role)
    decreases |users|
  {
    if users == [] then [] else [Collaborator(parse(users[0]), role)] + Tagged(users[1..], parse, role)
  }

  /** The collaborator list of the active project: each editor tagged EDITOR,
      then each viewer tagged VIEWER, both groups in their input order. */
  function Collaborators<U, V>(editors: seq<U>, viewers: seq<U>, parse: U -> V): (r: seq<Collaborator<V>>)
    ensures |r| == |editors| + |viewers|
    ensures forall i :: 0 <= i < |editors| ==> r[i] == Collaborator(parse(editors[i]), EDITOR)
    ensures forall j :: 0 <= j < |viewers| ==> r[|editors| + j] == Collaborator(parse(viewers[j]), VIEWER)
  {
    Tagged(editors, parse, EDITOR) + Tagged(viewers, parse, VIEWER)
  }

  /** The users of `cs` that carry `role`, in list order. */
  function WithRole<V>(cs: seq<Collaborator<V>>, role: string): seq<V>
    decreases |cs|
  {
    if cs == [] then []
    else (if cs[0].role == role then [cs[0].user] else []) + WithRole(cs[1..], role)
  }

  lemma {:induction false} WithRoleAppend<V>(a: seq<Collaborator<V>>, b: seq<Collaborator<V>>, role: string)
    ensures WithRole(a + b, role) == WithRole(a, role) + WithRole(b, role)
    decreases |a|
  {
    if a == [] {
      assert a + b == b;
    } else {
      var head := if a[0].role == role then [a[0].user] else [];
      calc {
        WithRole(a + b, role);
        { assert (a + b)[0] == a[0]; }
        head + WithRole((a + b)[1..], role);
        { assert (a + b)[1..] == a[1..] + b; }
        head + WithRole(a[1..] + b, role);
        { WithRoleAppend(a[1..], b, role); }
        head + (WithRole(a[1..], role) + WithRole(b, role));
        WithRole(a, role) + WithRole(b, role);
      }
    }
  }

  lemma {:induction false} WithRoleTagged<U, V>(users: seq<U>, parse: U -> V, tag: string, role: string)
    ensures WithRole(Tagged(users, parse, tag), role)
         == if tag == role then seq(|users|, i requires 0 <= i < |users| => parse(users[i])) else []
    decreases |users|
  {
    if users != [] {
      WithRoleTagged(users[1..], parse, tag, role);
      var t := Tagged(users, parse, tag);
      assert t[1..] == Tagged(users[1..], parse, tag);
    }
  }

  /** Splitting the flattened list by role gives back the two input groups,
      parsed and in order: nothing is lost, duplicated or reordered. */
  lemma CollaboratorsByRole<U, V>(editors: seq<U>, viewers: seq<U>, parse: U -> V)
    ensures WithRole(Collaborators(editors, viewers, parse), EDITOR)
         == seq(|editors|, i requires 0 <= i < |editors| => parse(editors[i]))
    ensures WithRole(Collaborators(editors, viewers, parse), VIEWER)
         == seq(|viewers|, i requires 0 <= i < |viewers| => parse(viewers[i]))
  {
    var te := Tagged(editors, parse, EDITOR);
    var tv := Tagged(viewers, parse, VIEWER);
    WithRoleAppend(te, tv, EDITOR);
    WithRoleAppend(te, tv, VIEWER);
    WithRoleTagged(editors, parse, EDITOR, EDITOR);
    WithRoleTagged(editors, parse, EDITOR, VIEWER);
    WithRoleTagged(viewers, parse, VIEWER, EDITOR);
    WithRoleTagged(viewers, parse, VIEWER, VIEWER);
  }

  /** The value the effect publishes for the project tree `projects` and the
      URL's project id. */
  function ResolveActiveProject<U, V>(projects: seq<Project<U>>, urlProjectID: int, parse: U -> V)
    : (r: ActiveProjectValue<V>)
    ensures r.WrappedDefaults? <==> !Occurs(projects, urlProjectID)
    ensures r.Resolved? ==>
      FirstMatch(projects, urlProjectID).Some? &&
      var p := FirstMatch(projects, urlProjectID).value;
      && r.values.projectID == urlProjectID
      && r.values.projectName == p.projectName
      && r.values.isPublic == p.isPublic
      && r.values.collaborators == Collaborators(p.editors, p.viewers, parse)
  {
    FirstMatchIffOccurs(projects, urlProjectID);
    match FirstMatch(projects, urlProjectID)
    case None => WrappedDefaults
    case Some(p) =>
      Resolved(ProjectValues(Collaborators(p.editors, p.viewers, parse), p.id, p.projectName, p.isPublic))
  }

  /** The effect body: nothing is published while the projects are still being
      fetched; otherwise the search runs and its outcome is published. */
  method EffectSetActiveProject<U, V>(
    currentOrgProjects: seq<Project<U>>, urlProjectID: int, isFetchingProjects: bool, parse: U -> V)
    returns (published: Option<ActiveProjectValue<V>>)
    ensures published.None? <==> isFetchingProjects
    ensures !isFetchingProjects ==> published.value == ResolveActiveProject(currentOrgProjects, urlProjectID, parse)
  {
    if isFetchingProjects {
      return None;
    }
    var activeProject := FindNestedTargetProject(currentOrgProjects, urlProjectID);
    if activeProject.None? {
      published := Some(WrappedDefaults);
    } else {
      var p := activeProject.value;
      var collaborators := Collaborators(p.editors, p.viewers, parse);
      published := Some(Resolved(ProjectValues(collaborators, p.id, p.projectName, p.isPublic)));
    }
  }
}
