/** What the admission webhooks read from the cluster. */
module ClusterState {
  import opened Basics

  /** Users by name with their annotations, groups with their members, namespaces with their labels
      and with their annotations, usage profiles with the number of namespaces they allow, and
      quota overrides by name. */
  datatype State = State(
    users: map<string, StringMap>,
    groups: map<string, seq<string>>,
    namespaces: map<string, StringMap>,
    annotations: map<string, StringMap>,
    profiles: map<string, int>,
    overrides: map<string, StringMap>
  )

  /** Reads that fail for other reasons than a missing object. */
  datatype Ref = User(user: string) | Group(group: string) | Namespace(ns: string) | Profile(profile: string)
    | Override(override: string) | NamespaceList

  datatype Lookup<+T> = Found(value: T) | NotFound | Failed

  function Read<T>(m: map<string, T>, k: string, failing: bool): Lookup<T> {
    if failing then Failed else if k in m then Found(m[k]) else NotFound
  }
}
