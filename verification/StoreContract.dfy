/** The promise every object store makes about one location: coherent reads and atomic conditional
    writes. The machines of `CasProtocol` and `Lifecycles` rely on `Contract` alone; the memory
    store and the filesystem store are shown to keep it. */
module StoreContract {
  import opened Prelude

  /** An opaque token; only equality means something. */
  type Version = string

  datatype Object<+B> = Object(bytes: B, version: Version)

  datatype StoreOp<+B> =
    | Get
    | Create(bytes: B)
    | Replace(expected: Version, bytes: B)

  datatype StoreReply<+B> =
    | Found(found: Option<Object<B>>)
    | Wrote(version: Version)
    | AlreadyExists(observed: Version)
    | Conflict(current: Option<Version>)
    | StoreError

  function VersionOf<B>(stored: Option<Object<B>>): Option<Version> {
    if stored.None? then None else Some(stored.value.version)
  }

  /** The condition under which `op` may write. */
  predicate Accepts<B>(pre: Option<Object<B>>, op: StoreOp<B>) {
    match op
    case Get => false
    case Create(_) => pre.None?
    case Replace(expected, _) => VersionOf(pre) == Some(expected)
  }

  /** `reply` and `post` are allowed outcomes of one atomic `op` on `pre`, where `used`
      holds every version the location ever had. A store error is ambiguous: the
      write may have happened. */
  ghost predicate Contract<B>(
    pre: Option<Object<B>>, op: StoreOp<B>, reply: StoreReply<B>,
    post: Option<Object<B>>, used: set<Version>)
  {
    match reply
    case Found(found) => op.Get? && found == pre && post == pre
    case Wrote(version) => Committed(pre, op, post, used) && VersionOf(post) == Some(version)
    case AlreadyExists(observed) => op.Create? && VersionOf(pre) == Some(observed) && post == pre
    case Conflict(current) => op.Replace? && !Accepts(pre, op) && current == VersionOf(pre) && post == pre
    case StoreError => post == pre || Committed(pre, op, post, used)
  }

  ghost predicate Committed<B>(
    pre: Option<Object<B>>, op: StoreOp<B>, post: Option<Object<B>>, used: set<Version>)
  {
    Accepts(pre, op) && post.Some? && post.value.bytes == op.bytes && post.value.version !in used
  }
}
