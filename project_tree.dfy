/**
 The organisation's project tree and `findNestedTargetProject`, the search that
 resolves the project id taken from the page's URL: depth first, pre-order, a
 project before its children and an earlier sibling's whole subtree before the
 later siblings.
 */
module ProjectTree {

  datatype Option<T> = None | Some(value: T)

  /** A project as the organisation's project listing returns it, reduced to what
      the active-project resolution reads. `U` is a raw collaborator record.
      A project without children has `children == []`. */
  datatype Project<U> = Project(
    id: int,
    projectName: string,
    isPublic: bool,
    editors: seq<U>,
    viewers: seq<U>,
    children: seq<Project<U>>)

  /** The search as a recursive definition: the first project with id `target`,
      trying each project and then its children before its next sibling. */
  function FirstMatch<U>(ps: seq<Project<U>>, target: int): Option<Project<U>>
  {
    if ps == [] then None
    else if ps[0].id == target then Some(ps[0])
    else match FirstMatch(ps[0].children, target)
      case Some(p) => Some(p)
      case None => FirstMatch(ps[1..], target)
  }

  /** Some project anywhere in the forest `ps` has id `target`. */
  predicate Occurs<U>(ps: seq<Project<U>>, target: int)
  {
    exists i :: 0 <= i < |ps| && (ps[i].id == target || Occurs(ps[i].children, target))
  }

  /** Every project of the forest, listed parent first, subtrees left to right. */
  function PreOrder<U>(ps: seq<Project<U>>): seq<Project<U>>
  {
    if ps == [] then [] else [ps[0]] + PreOrder(ps[0].children) + PreOrder(ps[1..])
  }

  /** The lowest index in `s` of a project with id `target`, or -1. */
  function IndexOfId<U>(s: seq<Project<U>>, target: int): (k: int)
    ensures -1 <= k < |s|
    ensures k == -1 <==> forall j :: 0 <= j < |s| ==> s[j].id != target
    ensures 0 <= k ==> s[k].id == target
    ensures forall j :: 0 <= j < k ==> s[j].id != target
  {
    if s == [] then -1
    else if s[0].id == target then 0
    else
      var k := IndexOfId(s[1..], target);
      if k == -1 then -1 else k + 1
  }

  /** The first project of the flat list `s` with id `target`. */
  function FirstWithId<U>(s: seq<Project<U>>, target: int): Option<Project<U>>
  {
    var k := IndexOfId(s, target);
    if k < 0 then None else Some(s[k])
  }

  lemma {:induction false} FirstWithIdAppend<U>(a: seq<Project<U>>, b: seq<Project<U>>, target: int)
    ensures FirstWithId(a + b, target)
         == if FirstWithId(a, target).Some? then FirstWithId(a, target) else FirstWithId(b, target)
  {
    if a != [] {
      assert (a + b)[0] == a[0];
      if a[0].id != target {
        assert (a + b)[1..] == a[1..] + b;
        FirstWithIdAppend(a[1..], b, target);
      }
    } else {
      assert a + b == b;
    }
  }

  /** The search and the flat listing agree: the project found is the first
      project with the target id in pre-order, and nothing is found exactly
      when no project in the pre-order listing has that id. */
  lemma {:induction false} FirstMatchIsFirstInPreOrder<U>(ps: seq<Project<U>>, target: int)
    ensures FirstMatch(ps, target) == FirstWithId(PreOrder(ps), target)
  {
    if ps != [] {
      var p := ps[0];
      FirstMatchIsFirstInPreOrder(p.children, target);
      FirstMatchIsFirstInPreOrder(ps[1..], target);
      FirstWithIdAppend([p] + PreOrder(p.children), PreOrder(ps[1..]), target);
      FirstWithIdAppend([p], PreOrder(p.children), target);
    }
  }

  /** The search finds a project iff one with the target id occurs anywhere in
      the tree, and what it finds has that id. */
  lemma {:induction false} FirstMatchIffOccurs<U>(ps: seq<Project<U>>, target: int)
    ensures FirstMatch(ps, target).Some? <==> Occurs(ps, target)
    ensures FirstMatch(ps, target).Some? ==> FirstMatch(ps, target).value.id == target
  {
    if ps != [] {
      FirstMatchIffOccurs(ps[0].children, target);
      FirstMatchIffOccurs(ps[1..], target);
      if Occurs(ps[1..], target) {
        var i :| 0 <= i < |ps[1..]| && (ps[1..][i].id == target || Occurs(ps[1..][i].children, target));
        assert ps[1..][i] == ps[i + 1];
      }
      if Occurs(ps, target) && ps[0].id != target && !Occurs(ps[0].children, target) {
        var i :| 0 <= i < |ps| && (ps[i].id == target || Occurs(ps[i].children, target));
        assert i != 0;
        assert ps[1..][i - 1] == ps[i];
      }
    }
  }

  /** First-match of a forest split into a prefix and the rest. */
  lemma {:induction false} FirstMatchAppend<U>(a: seq<Project<U>>, b: seq<Project<U>>, target: int)
    ensures FirstMatch(a + b, target)
         == if FirstMatch(a, target).Some? then FirstMatch(a, target) else FirstMatch(b, target)
  {
    if a != [] {
      assert (a + b)[0] == a[0];
      assert (a + b)[1..] == a[1..] + b;
      FirstMatchAppend(a[1..], b, target);
    } else {
      assert a + b == b;
    }
  }

  /** `findNestedTargetProject`: a `for...of` loop over the siblings that
      returns a project with the target id as soon as it sees one, and
      otherwise searches the project's non-empty children before moving on. */
  method FindNestedTargetProject<U>(allProjects: seq<Project<U>>, targetProjectID: int)
    returns (found: Option<Project<U>>)
    ensures found == FirstMatch(allProjects, targetProjectID)
  {
    var i := 0;
    while i < |allProjects|
      invariant 0 <= i <= |allProjects|
      invariant FirstMatch(allProjects[..i], targetProjectID) == None
    {
      var project := allProjects[i];
      FirstMatchAppend(allProjects[..i], allProjects[i..], targetProjectID);
      assert allProjects[..i] + allProjects[i..] == allProjects;
      assert allProjects[i..][0] == project;
      FirstMatchAppend(allProjects[..i], [project], targetProjectID);
      assert allProjects[..i + 1] == allProjects[..i] + [project];
      if project.id == targetProjectID {
        return Some(project);
      }
      var projectChildren := project.children;
      if projectChildren != [] {
        var childTarget := FindNestedTargetProject(projectChildren, targetProjectID);
        if childTarget.Some? {
          return childTarget;
        }
      }
      i := i + 1;
    }
    assert allProjects[..i] == allProjects;
    return None;
  }
}
