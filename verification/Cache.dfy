/**
 The latest-value cache as its callers see it one call at a time: the snapshot a read returns,
 reused or rebuilt, is the live map of the driver.
 */
module Cache {
  import opened CacheProtocol
  import opened Common

  class DriverCache {
    var values: Values
    var snapshot: Option<Values>
    var dirty: bool

    /** A clear flag vouches for the snapshot. */
    ghost predicate Valid()
      reads this
    {
      !dirty && snapshot.Some? ==> snapshot.value == values
    }

    constructor ()
      ensures Valid() && values == map[]
    {
      values, snapshot, dirty := map[], None, false;
    }

    method Update(tag: Tag, value: nat)
      requires Valid()
      modifies this
      ensures Valid() && values == old(values)[tag := value] && snapshot == old(snapshot)
    {
      values := values[tag := value];
      dirty := true;
    }

    method DeleteTag(tag: Tag)
      requires Valid()
      modifies this
      ensures Valid() && values == old(values) - {tag} && snapshot == old(snapshot)
    {
      values := values - {tag};
      dirty := true;
    }

    /** Returns the snapshot if it is good, otherwise copies the live map key by key. */
    method GetAll() returns (snap: Values)
      requires Valid()
      modifies this`snapshot, this`dirty
      ensures Valid() && snap == values
      ensures old(!dirty && snapshot.Some?) ==> snapshot == old(snapshot)
      ensures !dirty && snapshot == Some(values)
    {
      if !dirty && snapshot.Some? {
        return snapshot.value;
      }
      snap := map[];
      var todo := values.Keys;
      while todo != {}
        invariant todo <= values.Keys
        invariant forall k :: k in snap <==> k in values && k !in todo
        invariant forall k :: k in snap ==> snap[k] == values[k]
        decreases |todo|
      {
        var k :| k in todo;
        snap := snap[k := values[k]];
        todo := todo - {k};
      }
      snapshot := Some(snap);
      dirty := false;
    }
  }

  /** The shards together: one cache per driver, made at the driver's first update. */
  class LatestCache {
    var drivers: map<nat, DriverCache>

    ghost predicate Valid()
      reads this, drivers.Values
    {
      && (forall d :: d in drivers ==> drivers[d].Valid())
      && (forall d, e :: d in drivers && e in drivers && d != e ==> drivers[d] != drivers[e])
    }

    /** The live value of every tag of a driver. */
    ghost function Contents(driver: nat): Values
      reads this, drivers.Values
    {
      if driver in drivers then drivers[driver].values else map[]
    }

    constructor ()
      ensures Valid() && drivers == map[]
    {
      drivers := map[];
    }

    method Update(driver: nat, tag: Tag, value: nat)
      requires Valid()
      modifies this, drivers.Values
      ensures Valid() && Contents(driver) == old(Contents(driver))[tag := value]
      ensures forall d :: d != driver ==> Contents(d) == old(Contents(d))
    {
      if driver !in drivers {
        var dc := new DriverCache();
        drivers := drivers[driver := dc];
      }
      drivers[driver].Update(tag, value);
    }

    method DeleteTag(driver: nat, tag: Tag)
      requires Valid()
      modifies drivers.Values
      ensures Valid() && drivers == old(drivers) && Contents(driver) == old(Contents(driver)) - {tag}
      ensures forall d :: d != driver ==> Contents(d) == old(Contents(d))
    {
      if driver in drivers {
        drivers[driver].DeleteTag(tag);
      }
    }

    /** All latest values of a driver; nothing for a driver never updated. */
    method GetByDriver(driver: nat) returns (snap: Values)
      requires Valid()
      modifies drivers.Values
      ensures Valid() && drivers == old(drivers) && snap == Contents(driver)
      ensures forall d :: Contents(d) == old(Contents(d))
    {
      snap := map[];
      if driver in drivers {
        snap := drivers[driver].GetAll();
      }
    }
  }
}
