/** Names that several components of the addon agree on. */
module Config {
  const ADDON_NAME := "multicluster-observability-addon"
  /** The addon's namespace on the hub. */
  const HUB_NS := "open-cluster-management-observability"
  const COMPONENT_LABEL := "app.kubernetes.io/component"
}
