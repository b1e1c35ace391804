/** API types shared by the provider-side reconcilers (sdk/apis/kubebind/v1alpha2). */
module Api {

  datatype Option<T> = None | Some(value: T)

  datatype Key = Key(namespace: string, name: string)

  datatype GroupResource = GroupResource(group: string, resource: string) {
    /** GroupResource.String. */
    function Text(): string {
      resource + "." + group
    }

    /** ResourceGroupName of a requested resource: the empty group is spelled out. */
    function ResourceGroupName(): string {
      resource + "." + if group == "" then "core" else group
    }
  }

  /** A resource of an export, or of the request or template that leads to one. */
  datatype ExportResource = ExportResource(gr: GroupResource, versions: seq<string>)

  /** How consumers are kept apart on the provider side; `Unknown` is any other setting. */
  datatype Isolation = Prefixed | Namespaced | NoIsolation | Unknown

  const CLUSTER_SCOPED := "Cluster"
  const NAMESPACE_SCOPED := "Namespaced"

  datatype ClaimableAPI = ClaimableAPI(plural: string, group: string, resource: string, scope: string)

  const CLAIMABLE_APIS := [
    ClaimableAPI("configmaps", "", "configmaps", NAMESPACE_SCOPED),
    ClaimableAPI("secrets", "", "secrets", NAMESPACE_SCOPED),
    ClaimableAPI("serviceaccounts", "", "serviceaccounts", NAMESPACE_SCOPED)]
}
