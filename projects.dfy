/** src/hooks/useProjects.ts: the current project and the project list. */
module Projects {
  import opened Wrappers
  import opened Seqs
  import opened Sorting
  import opened Domain

  function IsCurrent(current: Option<string>): Project -> bool {
    (p: Project) => current == Some(p.id)
  }

  /** `projects.find((p) => p.id === currentProjectId) ?? null`: the first
      project with the current identifier, or none. */
  function CurrentProject(d: AppData): (r: Option<Project>)
    ensures r.Some? ==> r.value in d.projects && d.currentProjectId == Some(r.value.id)
    ensures r.None? <==> forall p :: p in d.projects ==> d.currentProjectId != Some(p.id)
    ensures r.Some? ==> (exists i :: 0 <= i < |d.projects| && d.projects[i] == r.value &&
                          (forall j :: 0 <= j < i ==> d.currentProjectId != Some(d.projects[j].id)))
  {
    var i := FirstIndex(d.projects, IsCurrent(d.currentProjectId));
    if i < |d.projects| then Some(d.projects[i]) else None
  }

  /** Without a current project there is no current project record. */
  lemma NoCurrentProject(d: AppData)
    requires d.currentProjectId.None?
    ensures CurrentProject(d) == None
  {
  }

  /** With unique identifiers the current project is the one carrying that identifier. */
  lemma CurrentProjectUnique(d: AppData, p: Project)
    requires UniqueBy(d.projects, ProjectIdOf)
    requires p in d.projects && d.currentProjectId == Some(p.id)
    ensures CurrentProject(d) == Some(p)
  {
    var r := CurrentProject(d);
    var k :| 0 <= k < |d.projects| && d.projects[k] == p;
    var i := FirstIndex(d.projects, IsCurrent(d.currentProjectId));
    assert i <= k;
    assert ProjectIdOf(d.projects[i]) == ProjectIdOf(d.projects[k]);
  }

  /** The comparator `(a, b) => b.updatedAt - a.updatedAt` as a key. */
  function ProjectUpdatedKey(p: Project): Key { (-p.updatedAt, 0) }

  /** `sortedProjects`: a copy of the projects, most recently updated first. */
  function SortedProjects(projects: seq<Project>): (r: seq<Project>)
    ensures |r| == |projects| && multiset(r) == multiset(projects)
    ensures forall i, j :: 0 <= i < j < |r| ==> r[i].updatedAt >= r[j].updatedAt
  {
    var r := SortBy(projects, ProjectUpdatedKey);
    assert forall i, j :: 0 <= i < j < |r| ==> KeyLe(ProjectUpdatedKey(r[i]), ProjectUpdatedKey(r[j]));
    r
  }

  /** Projects with equal `updatedAt` keep their stored relative order. */
  lemma SortedProjectsStable(projects: seq<Project>, t: int)
    ensures WithKey(SortedProjects(projects), ProjectUpdatedKey, (-t, 0))
         == WithKey(projects, ProjectUpdatedKey, (-t, 0))
  {
    SortByStable(projects, ProjectUpdatedKey, (-t, 0));
  }
}
