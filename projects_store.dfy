/**
 * The front end's project list (frontend-svelte/src/lib/stores/projects.js):
 * the list itself plus the `loading` and `error` flags. Each operation takes
 * the outcome of its API call as a parameter; a call that is rejected leaves
 * the list as it was and sets `error`, and every operation ends with
 * `loading` false.
 */
module ProjectsStore {
  import opened Wrappers
  import opened Seqs
  import opened Models
  import opened ApiResults

  /** The upload endpoint's reply. */
  datatype UploadResponse = UploadResponse(project: Project, tasksCreated: nat)

  /** No two projects of the list share a key. */
  predicate DistinctIds(projects: seq<Project>) {
    forall i, j :: 0 <= i < j < |projects| ==> projects[i].id != projects[j].id
  }

  /** The list after an upload: the first project with the uploaded one's
      key is replaced where it stands; without one, the project is added at
      the end. */
  function Upserted(projects: seq<Project>, p: Project): (r: seq<Project>)
    ensures |r| == if exists i :: 0 <= i < |projects| && projects[i].id == p.id then |projects| else |projects| + 1
    ensures forall i :: 0 <= i < |projects| && projects[i].id != p.id ==> r[i] == projects[i]
    ensures p in r
  {
    var i := FindIndex(projects, (q: Project) => q.id == p.id);
    if i >= 0 then
      assert projects[i := p][i] == p;
      projects[i := p]
    else
      assert (projects + [p])[|projects|] == p;
      projects + [p]
  }

  /** A known key is replaced at the index of its first occurrence, and
      the length stays. */
  lemma UpsertedAt(projects: seq<Project>, p: Project, k: nat)
    requires k < |projects| && projects[k].id == p.id
    requires forall j :: 0 <= j < k ==> projects[j].id != p.id
    ensures Upserted(projects, p) == projects[k := p]
  {
  }

  /** A new key grows the list by exactly the uploaded project. */
  lemma UpsertedNew(projects: seq<Project>, p: Project)
    requires forall i :: 0 <= i < |projects| ==> projects[i].id != p.id
    ensures Upserted(projects, p) == projects + [p]
  {
  }

  /** Uploading the same project twice gives the list one upload gives. */
  lemma UpsertedIdempotent(projects: seq<Project>, p: Project)
    ensures Upserted(Upserted(projects, p), p) == Upserted(projects, p)
  {
    var r := Upserted(projects, p);
    var k := FindIndex(projects, (q: Project) => q.id == p.id);
    if k >= 0 {
      UpsertedAt(projects, p, k);
      UpsertedAt(r, p, k);
      assert r[k := p] == r;
    } else {
      UpsertedNew(projects, p);
      UpsertedAt(r, p, |projects|);
      assert r[|projects| := p] == r;
    }
  }

  /** Keys that were distinct stay distinct: an upload never duplicates a
      project. */
  lemma UpsertedDistinct(projects: seq<Project>, p: Project)
    requires DistinctIds(projects)
    ensures DistinctIds(Upserted(projects, p))
  {
    var r := Upserted(projects, p);
    var k := FindIndex(projects, (q: Project) => q.id == p.id);
    if k >= 0 {
      forall i, j | 0 <= i < j < |r| ensures r[i].id != r[j].id {
        if i == k {
          assert projects[j].id != projects[k].id;
        } else if j == k {
          assert projects[i].id != projects[k].id;
        }
      }
    } else {
      forall i, j | 0 <= i < j < |r| ensures r[i].id != r[j].id {
        if j == |projects| {
          assert projects[i].id != p.id;
        }
      }
    }
  }

  /** The list after a delete: every project with the key is gone. */
  function Removed(projects: seq<Project>, id: nat): (r: seq<Project>)
    ensures forall i :: 0 <= i < |r| ==> r[i].id != id && r[i] in projects
    ensures forall i :: 0 <= i < |projects| && projects[i].id != id ==> projects[i] in r
  {
    Filter(projects, (p: Project) => p.id != id)
  }

  /** The rest keep their order: removing from a concatenation removes from
      each part; removing a key no project has changes nothing. */
  lemma RemovedKeepsOrder(a: seq<Project>, b: seq<Project>, id: nat)
    ensures Removed(a + b, id) == Removed(a, id) + Removed(b, id)
    ensures (forall i :: 0 <= i < |a| ==> a[i].id != id) ==> Removed(a, id) == a
  {
    FilterConcat(a, b, (p: Project) => p.id != id);
    FilterAll(a, (p: Project) => p.id != id);
  }

  class ProjectsStore {
    var projects: seq<Project>
    var loading: bool
    var error: Option<string>

    constructor ()
      ensures projects == [] && !loading && error == None
    {
      projects, loading, error := [], false, None;
    }

    /** fetchAll: the list becomes the server's list. */
    method FetchAll(response: ApiResult<seq<Project>>)
      modifies this
      ensures !loading
      ensures response.Ok? ==> projects == response.data && error == None
      ensures response.Failed? ==> projects == old(projects) && error == Some(ErrorMessage(response.err, "Failed to fetch projects"))
    {
      loading, error := true, None;
      match response {
        case Ok(data) =>
          projects := data;
        case Failed(e) =>
          error := Some(ErrorMessage(e, "Failed to fetch projects"));
      }
      loading := false;
    }

    /** uploadProject: the returned project is put in the list by key; the
        reply is handed back, or None when the call was rejected (the
        source rethrows). The body keeps the statements of the `update`
        callback; `Upserted` is their specification. */
    method UploadProject(response: ApiResult<UploadResponse>) returns (data: Option<UploadResponse>)
      modifies this
      ensures !loading
      ensures response.Ok? ==> projects == Upserted(old(projects), response.data.project) && error == None && data == Some(response.data)
      ensures response.Failed? ==> projects == old(projects) && data == None
      ensures response.Failed? ==> error == Some(ErrorMessage(response.err, "Upload failed: " + response.err.message))
    {
      loading, error := true, None;
      match response {
        case Ok(reply) =>
          var existingIndex := FindIndex(projects, (q: Project) => q.id == reply.project.id);
          if existingIndex >= 0 {
            projects := projects[existingIndex := reply.project];
          } else {
            projects := projects + [reply.project];
          }
          data := Some(reply);
        case Failed(e) =>
          error := Some(ErrorMessage(e, "Upload failed: " + e.message));
          data := None;
      }
      loading := false;
    }

    /** deleteProject: once the server confirms, every project with the key
        leaves the list. Returns whether the call succeeded. */
    method DeleteProject(id: nat, response: ApiResult<()>) returns (ok: bool)
      modifies this
      ensures !loading
      ensures ok <==> response.Ok?
      ensures ok ==> projects == Removed(old(projects), id) && error == None
      ensures !ok ==> projects == old(projects) && error == Some(ErrorMessage(response.err, "Failed to delete project"))
    {
      loading, error := true, None;
      match response {
        case Ok(_) =>
          projects := Removed(projects, id);
          ok := true;
        case Failed(e) =>
          error := Some(ErrorMessage(e, "Failed to delete project"));
          ok := false;
      }
      loading := false;
    }

    method ClearError()
      modifies this
      ensures error == None && projects == old(projects) && loading == old(loading)
    {
      error := None;
    }
  }
}
