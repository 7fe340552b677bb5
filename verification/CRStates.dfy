/** Availability of caches and delivery services, and the locked store of it
    (`lib/go-tc/crstates.go`, `traffic_monitor/peer/crstates.go`). */
module CRStates {
  import opened Core

  /** The disabled locations are a slice, which copies of the states share. */
  datatype DSState = DSState(isAvailable: bool, disabledLocations: array<CacheGroupName>)

  datatype States = States(caches: map<CacheName, bool>, deliveryServices: map<DeliveryServiceName, DSState>)

  /** A missing cache reads as unavailable. */
  function CacheAvailable(caches: map<CacheName, bool>, c: CacheName): bool {
    c in caches && caches[c]
  }

  /** Each method is one step under the lock. */
  class Threadsafe {
    var caches: map<CacheName, bool>
    var deliveryServices: map<DeliveryServiceName, DSState>

    constructor ()
      ensures caches == map[] && deliveryServices == map[]
    {
      caches, deliveryServices := map[], map[];
    }

    /** A snapshot: the maps are copied, the slices are not. */
    function Get(): (states: States)
      reads this
      ensures states.caches == caches && states.deliveryServices == deliveryServices
    {
      States(caches, deliveryServices)
    }

    /** Only sets a cache that exists: a result that comes in for a deleted cache does not bring it back. */
    method SetCache(name: CacheName, available: bool)
      modifies this`caches
      ensures caches.Keys == old(caches.Keys)
      ensures caches == if name in old(caches) then old(caches)[name := available] else old(caches)
    {
      if name in caches {
        caches := caches[name := available];
      }
    }

    method AddCache(name: CacheName, available: bool)
      modifies this`caches
      ensures caches == old(caches)[name := available]
    {
      caches := caches[name := available];
    }

    method DeleteCache(name: CacheName)
      modifies this`caches
      ensures caches == old(caches) - {name}
    {
      caches := caches - {name};
    }

    method SetDeliveryService(name: DeliveryServiceName, ds: DSState)
      modifies this`deliveryServices
      ensures deliveryServices == old(deliveryServices)[name := ds]
    {
      deliveryServices := deliveryServices[name := ds];
    }
  }
}
