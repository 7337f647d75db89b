/** The storage bucket, one object operation at a time.

    Each function is the atomic effect of one request of the storage client. Object names are the
    key under one of three prefixes, and metadata is restricted to the six entries in use. */
module Bucket {
  import opened Wrappers
  import opened Timestamp

  datatype Name =
    | Queued(key: string)
    | InProgress(key: string)
    | DeadLetter(key: string)

  /** The metadata map: `None` is an absent entry. */
  datatype Meta = Meta(
    priority: Option<string>,
    notBefore: Option<string>,
    lease: Option<string>,
    attempts: Option<string>,
    lastAttempted: Option<string>,
    failedTime: Option<string>)

  const NO_META := Meta(None, None, None, None, None, None)

  /** `instance` plays the object's generation: no two creations share one. */
  datatype Obj = Obj(meta: Meta, created: Time, instance: nat, metageneration: nat)

  datatype Store = Store(objects: map<Name, Obj>, nextInstance: nat)

  const EMPTY := Store(map[], 0)

  /** Write or copy without a precondition: a new instance under `n`. */
  function Put(s: Store, n: Name, meta: Meta, now: Time): Store {
    Store(s.objects[n := Obj(meta, now, s.nextInstance, 1)], s.nextInstance + 1)
  }

  function Delete(s: Store, n: Name): Store {
    s.(objects := s.objects - {n})
  }

  function Override<T>(base: Option<T>, patch: Option<T>): Option<T> {
    if patch.Some? then patch else base
  }

  /** Metadata entries named in a patch replace the object's; the others stay. */
  function Patched(base: Meta, patch: Meta): Meta {
    Meta(Override(base.priority, patch.priority), Override(base.notBefore, patch.notBefore),
         Override(base.lease, patch.lease), Override(base.attempts, patch.attempts),
         Override(base.lastAttempted, patch.lastAttempted), Override(base.failedTime, patch.failedTime))
  }

  /** A metadata update keeps the instance and counts the metageneration up. */
  function Update(s: Store, n: Name, patch: Meta): Store
    requires n in s.objects
  {
    var o := s.objects[n];
    s.(objects := s.objects[n := o.(meta := Patched(o.meta, patch), metageneration := o.metageneration + 1)])
  }
}
