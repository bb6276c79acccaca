/** A Docker daemon as a map of containers.
  *
  * Every request is atomic. It may fail without effect, take effect and lose
  * its response, or be the last one before Ludock crashes, with or without
  * effect. Before each request the daemon may have restarted any number of
  * times: containers stop, and those whose restart policy is not "no" start.
  * Other managers may remove containers, which `meddled` records.
  */
module DockerHost {

  import opened Wrappers

  type Id = nat

  const NO_RESTART := "no"

  datatype Health = Unchecked | Pending | Healthy | Unhealthy

  // `dead` is a container a failed removal left behind: it cannot start.
  datatype Container = Container(name: string, running: bool, dead: bool, policy: string, startedAt: nat,
                                 image: string, owner: string, health: Health)

  type Containers = map<Id, Container>

  datatype Reply = Okay | NotFound | Unavailable | Crashed

  function Disturb(c: Container, wake: bool, halt: bool, now: nat, health: Health): Container {
    Awake(c, wake, halt, now).(health := health)
  }

  // A container that was created and never started.
  function Fresh(name: string, policy: string, image: string, owner: string): Container {
    Container(name, false, false, policy, 0, image, owner, Unchecked)
  }

  function Awake(c: Container, wake: bool, halt: bool, now: nat): Container {
    if wake && c.policy != NO_RESTART && !c.dead then c.(running := true, startedAt := now)
    else if halt then c.(running := false)
    else c
  }

  /** What daemon restarts, exiting processes and removals by other managers may
    * change: a container that stays keeps all but whether and how well it runs,
    * and only a restart policy starts one. */
  ghost predicate Undisturbed(before: Containers, after: Containers) {
    && after.Keys <= before.Keys
    && forall id :: id in after ==>
         && after[id] == before[id].(running := after[id].running, startedAt := after[id].startedAt,
           health := after[id].health)
         && (after[id].running && before[id].policy == NO_RESTART ==>
               before[id].running && after[id].startedAt == before[id].startedAt)
  }

  ghost predicate NameTaken(cs: Containers, name: string) {
    exists id :: id in cs && cs[id].name == name
  }

  class Host {
    var containers: Containers
    // Fresh identifiers and start times.
    var next: nat
    ghost var faults: nat
    // How often Ludock ended during a request.
    ghost var crashes: nat
    ghost var meddled: bool

    ghost predicate Valid()
      reads this
    {
      forall id :: id in containers ==> id < next && containers[id].startedAt < next
    }

    /** Unless another manager interfered, no container disappears by itself. */
    twostate predicate Spared(before: Containers, after: Containers)
      reads this
    {
      && (old(meddled) ==> meddled)
      && (!meddled ==> after.Keys == before.Keys)
    }

    constructor (containers: Containers, next: nat)
      requires forall id :: id in containers ==> id < next && containers[id].startedAt < next
      ensures Valid() && this.containers == containers && faults == crashes == 0 && !meddled
    {
      this.containers, this.next, faults, crashes, meddled := containers, next, 0, 0, false;
    }

    method Interfere()
      requires Valid()
      modifies `containers, `next, `meddled
      ensures Valid() && Undisturbed(old(containers), containers) && next > old(next)
      ensures Spared(old(containers), containers)
    {
      var woken: set<Id>, halted: set<Id>, gone: set<Id> := *, *, *;
      var health: Id -> Health := *;
      var now := next;
      meddled := meddled || exists id :: id in containers && id in gone;
      containers := map id | id in containers && id !in gone ::
        Disturb(containers[id], id in woken, id in halted, now, health(id));
      next := next + 1;
    }

    // The fate of one request, and whether it took effect.
    method Fate() returns (r: Reply, effective: bool)
      modifies `faults, `crashes
      ensures r != NotFound
      ensures r == Okay ==> effective
      ensures faults == old(faults) + if r == Okay then 0 else 1
      ensures crashes == old(crashes) + if r == Crashed then 1 else 0
    {
      var fine: bool, alive: bool := *, *;
      effective := *;
      r := if fine then Okay else if alive then Unavailable else Crashed;
      effective := effective || fine;
      faults := faults + if fine then 0 else 1;
      crashes := crashes + if r == Crashed then 1 else 0;
    }

    method Inspect(id: Id) returns (r: Reply, info: Option<Container>)
      requires Valid()
      modifies this
      ensures Valid() && Undisturbed(old(containers), containers) && Spared(old(containers), containers)
      ensures r == Okay ==> id in containers && info == Some(containers[id])
      ensures r == NotFound ==> id !in containers
      ensures faults == old(faults) + if r == Okay || r == NotFound then 0 else 1
      ensures crashes == old(crashes) + if r == Crashed then 1 else 0
    {
      Interfere();
      info := None;
      var e;
      r, e := Fate();
      if r == Okay {
        if id in containers {
          info := Some(containers[id]);
        } else {
          r := NotFound;
        }
      }
    }

    /** Inspect by name. */
    method Find(name: string) returns (r: Reply, id: Id, info: Option<Container>)
      requires Valid()
      modifies this
      ensures Valid() && Undisturbed(old(containers), containers) && Spared(old(containers), containers)
      ensures r == Okay ==> id in containers && info == Some(containers[id]) && containers[id].name == name
      ensures r == NotFound ==> !NameTaken(containers, name)
      ensures faults == old(faults) + if r == Okay || r == NotFound then 0 else 1
      ensures crashes == old(crashes) + if r == Crashed then 1 else 0
    {
      Interfere();
      id, info := 0, None;
      var e;
      r, e := Fate();
      if r == Okay {
        if id' :| id' in containers && containers[id'].name == name {
          id := id';
          info := Some(containers[id]);
        } else {
          r := NotFound;
        }
      }
    }

    /** Start is satisfied, without effect, by a running container. */
    method Start(id: Id) returns (r: Reply, ghost mid: Containers)
      requires Valid()
      modifies this
      ensures Valid()
      ensures Undisturbed(old(containers), mid) && Spared(old(containers), mid)
      ensures containers == mid ||
                (id in mid && !mid[id].running && !mid[id].dead && id in containers &&
                  old(next) < containers[id].startedAt &&
                  containers == mid[id := mid[id].(running := true, startedAt := containers[id].startedAt)])
      ensures r == Okay ==> id in containers && containers[id].running
      ensures r != Okay ==> faults > old(faults) || id !in old(containers) || old(containers[id].dead) || meddled
      ensures r == Crashed ==> faults > old(faults)
      ensures faults >= old(faults)
      ensures crashes == old(crashes) + if r == Crashed then 1 else 0
    {
      Interfere();
      mid := containers;
      if id !in containers || containers[id].dead {
        return if id in containers then Unavailable else NotFound, mid;
      }
      var effective;
      r, effective := Fate();
      if effective && !containers[id].running {
        containers := containers[id := containers[id].(running := true, startedAt := next)];
        next := next + 1;
      }
    }

    /** Forced removal. One that fails midway can leave a dead container. */
    method Remove(id: Id) returns (r: Reply, ghost mid: Containers)
      requires Valid()
      modifies this
      ensures Valid()
      ensures Undisturbed(old(containers), mid) && Spared(old(containers), mid)
      ensures containers == mid || containers == mid - {id} ||
                (id in mid && containers == mid[id := mid[id].(running := false, dead := true)])
      ensures r == Okay || r == NotFound ==> id !in containers
      ensures r != Okay && r != NotFound ==> faults > old(faults)
      ensures faults >= old(faults) && (r == Okay || r == NotFound ==> faults == old(faults))
      ensures crashes == old(crashes) + if r == Crashed then 1 else 0
    {
      Interfere();
      mid := containers;
      if id !in containers {
        return NotFound, mid;
      }
      var effective;
      r, effective := Fate();
      var halfway: bool := *;
      if r == Okay || (effective && !halfway) {
        containers := containers - {id};
      } else if effective {
        containers := containers[id := containers[id].(running := false, dead := true)];
      }
    }

    /** Create a stopped container; Docker refuses a name in use, and resolves the
      * image itself. */
    method Create(name: string, policy: string, owner: string)
      returns (r: Reply, id: Id, ghost made: bool, ghost mid: Containers)
      requires Valid()
      modifies this
      ensures Valid()
      ensures id > old(next) && id !in old(containers)
      ensures Undisturbed(old(containers), mid) && Spared(old(containers), mid)
      ensures made ==> id in containers
      ensures containers ==
              if made then mid[id := Fresh(name, policy, containers[id].image, owner)] else mid
      ensures made ==> !NameTaken(mid, name)
      ensures r == Okay ==> made
      ensures r != Okay ==> faults > old(faults) || NameTaken(old(containers), name)
      ensures r == Crashed ==> faults > old(faults)
      ensures faults >= old(faults) && (r == Okay ==> faults == old(faults))
      ensures crashes == old(crashes) + if r == Crashed then 1 else 0
    {
      Interfere();
      mid := containers;
      id, made := next, false;
      next := next + 1;
      if exists other :: other in containers && containers[other].name == name {
        return Unavailable, id, false, mid;
      }
      var effective;
      r, effective := Fate();
      made := effective;
      if effective {
        var image: string := *;
        containers := containers[id := Fresh(name, policy, image, owner)];
      }
    }

    /** Docker refuses to update a dead container. */
    method SetRestartPolicy(id: Id, policy: string) returns (r: Reply, ghost mid: Containers)
      requires Valid()
      modifies this
      ensures Valid()
      ensures Undisturbed(old(containers), mid) && Spared(old(containers), mid)
      ensures containers == mid || (id in mid && containers == mid[id := mid[id].(policy := policy)])
      ensures r == Okay ==> id in containers && containers[id].policy == policy
      ensures r != Okay ==> faults > old(faults) || id !in old(containers) || old(containers[id].dead) || meddled
      ensures r == Crashed ==> faults > old(faults)
      ensures faults >= old(faults) && (r == Okay ==> faults == old(faults))
      ensures crashes == old(crashes) + if r == Crashed then 1 else 0
    {
      Interfere();
      mid := containers;
      if id !in containers || containers[id].dead {
        return if id in containers then Unavailable else NotFound, mid;
      }
      var effective;
      r, effective := Fate();
      if effective {
        containers := containers[id := containers[id].(policy := policy)];
      }
    }

    method Rename(id: Id, name: string) returns (r: Reply, ghost mid: Containers)
      requires Valid()
      modifies this
      ensures Valid()
      ensures Undisturbed(old(containers), mid) && Spared(old(containers), mid)
      ensures containers == mid ||
              (id in mid && containers == mid[id := mid[id].(name := name)] && !NameTaken(mid, name))
      ensures r == Okay ==> id in containers && containers[id].name == name
      ensures r != Okay ==>
              faults > old(faults) || id !in old(containers) || meddled || NameTaken(old(containers), name)
      ensures r == Crashed ==> faults > old(faults)
      ensures faults >= old(faults) && (r == Okay ==> faults == old(faults))
      ensures crashes == old(crashes) + if r == Crashed then 1 else 0
    {
      Interfere();
      mid := containers;
      if id !in containers || exists other :: other in containers && containers[other].name == name {
        return if id in containers then Unavailable else NotFound, mid;
      }
      var effective;
      r, effective := Fate();
      if effective {
        containers := containers[id := containers[id].(name := name)];
      }
    }
  }
}
