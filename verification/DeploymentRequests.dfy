/** The requests of the control plane
    (control-plane/src/application/deployment_service.py:88-107 and :156-172,
    control-plane/src/application/artifact_registry_service.py:210-231). A request is one
    transaction, and so one event of the protocol. */
module DeploymentRequests {
  import opened Deployments
  import opened DeploymentWorkers
  import opened OrderedDict
  import opened Slugs

  /** The row of a user's slug. */
  predicate IsRow(db: Database, id: Id, user: string, slug: string)
  {
    id in db.deployments && db.deployments[id].birth.user == user && db.deployments[id].birth.slug == slug
  }

  ghost function SlugsOf(db: Database, user: string): set<string>
  {
    set d | d in db.deployments && db.deployments[d].birth.user == user :: db.deployments[d].birth.slug
  }

  /** One event of the protocol happened. */
  predicate Did(cfg: Config, before: State, after: State, e: Event)
  {
    Enabled(before, e) && after == Apply(cfg, before, e)
  }

  datatype Creation = Created(slug: string) | NameExists

  class DeploymentService {
    const world: World

    constructor (world: World)
      ensures this.world == world
    {
      this.world := world;
    }

    /** `name_exists`. */
    method NameTaken(user: string, name: string) returns (taken: bool)
      ensures taken <==> !FreeName(world.state.db, user, name)
    {
      var db := world.state.db;
      taken := exists d :: d in db.deployments && db.deployments[d].birth.user == user && db.deployments[d].birth.name == name;
    }

    /** `get_by_slug`. */
    method FindBySlug(user: string, slug: string) returns (found: Option<Id>)
      ensures found.Some? ==> IsRow(world.state.db, found.value, user, slug)
      ensures found.None? ==> forall id :: !IsRow(world.state.db, id, user, slug)
    {
      var db := world.state.db;
      var todo := db.deployments.Keys;
      while todo != {}
        invariant todo <= db.deployments.Keys
        invariant forall id | id in db.deployments && id !in todo :: !IsRow(db, id, user, slug)
        decreases |todo|
      {
        var id :| id in todo;
        if IsRow(db, id, user, slug) {
          return Some(id);
        }
        todo := todo - {id};
      }
      return None;
    }

    /** `create_model_deployment` and `create_image_deployment`: a row under the first free slug and
        its DEPLOY task, or nothing when the name is taken. */
    method CreateDeployment(user: string, name: string, image: bool, id: Id, at: nat) returns (r: Creation)
      requires world.Valid() && id !in world.state.history.born
      modifies world
      ensures world.Valid()
      ensures r.NameExists? <==> !FreeName(old(world.state.db), user, name)
      ensures r.NameExists? ==> world.state == old(world.state)
      ensures r.Created? ==>
        && var e := Create(id, Birth(user, name, r.slug, image), at);
           world.events == old(world.events) + [e] && Did(world.cfg, old(world.state), world.state, e)
      ensures r.Created? ==>
        exists index: nat ::
          && 1 <= index <= |SlugsOf(old(world.state.db), user)| + 1
          && r.slug == SlugCandidate(Slugify(name), index) && r.slug !in SlugsOf(old(world.state.db), user)
          && forall i | 1 <= i < index :: SlugCandidate(Slugify(name), i) in SlugsOf(old(world.state.db), user)
    {
      var nameTaken := NameTaken(user, name);
      if nameTaken {
        return NameExists;
      }
      var db := world.state.db;
      var taken := set d | d in db.deployments && db.deployments[d].birth.user == user :: db.deployments[d].birth.slug;
      var slug, index := GenerateUniqueSlug(taken, name);
      assert FreeSlug(db, user, slug);
      world.Happen(Create(id, Birth(user, name, slug, image), at));
      assert taken == SlugsOf(db, user);
      return Created(slug);
    }

    /** `delete_deployment`: the row says DELETING and a DELETE task waits, unless it is DELETED. */
    method DeleteDeployment(user: string, slug: string, at: nat) returns (status: Option<Status>)
      requires world.Valid()
      modifies world
      ensures world.Valid()
      ensures status.None? ==> world.state == old(world.state) && forall id :: !IsRow(world.state.db, id, user, slug)
      ensures status.Some? ==>
        exists id ::
          && IsRow(old(world.state.db), id, user, slug)
          && world.events == old(world.events) + [RequestDelete(id, at)]
          && Did(world.cfg, old(world.state), world.state, RequestDelete(id, at))
          && status.value == world.state.db.deployments[id].status
          && status.value == if old(world.state.db).deployments[id].status == DELETED then DELETED else DELETING
    {
      var found := FindBySlug(user, slug);
      if found.None? {
        return None;
      }
      world.Happen(RequestDelete(found.value, at));
      return Some(world.state.db.deployments[found.value].status);
    }

    /** `purge_deployment`: the row and its tasks are gone; the cluster is left as it is. */
    method PurgeDeployment(user: string, slug: string) returns (purged: bool)
      requires world.Valid()
      modifies world
      ensures world.Valid() && world.state.cluster == old(world.state.cluster)
      ensures !purged ==> world.state == old(world.state) && forall id :: !IsRow(world.state.db, id, user, slug)
      ensures purged ==>
        exists id ::
          && IsRow(old(world.state.db), id, user, slug)
          && Did(world.cfg, old(world.state), world.state, Purge(id))
          && id !in world.state.db.deployments
          && forall t | t in world.state.db.tasks :: world.state.db.tasks[t].deployment != id
    {
      var found := FindBySlug(user, slug);
      if found.None? {
        return false;
      }
      world.Happen(Purge(found.value));
      return true;
    }
  }
}
