/** The API objects the operator reads and writes, as values. A nil map and an empty map are the same value: they
    serialise alike and every read of them in the operator agrees. */
module Types {
  import opened Common

  /** types.NamespacedName */
  datatype Key = Key(namespace: string, name: string)

  datatype HorizontalScalingPolicy = HorizontalScalingPolicy(
    enabledByDefault: bool,
    minReplicas: int32,
    maxReplicas: int32,
    targetCPU: int32)

  datatype WorkloadPolicySpec = WorkloadPolicySpec(
    defaultRequests: map<string, string>,
    defaultLimits: map<string, string>,
    mandatoryLabels: map<string, string>,
    priority: int32,
    horizontalScaling: Option<HorizontalScalingPolicy>)

  /** A policy as List and Get return it; its status is kept beside it in the cluster. */
  datatype WorkloadPolicy = WorkloadPolicy(key: Key, uid: string, generation: int, spec: WorkloadPolicySpec)

  datatype TelemetryProfile = TelemetryProfile(
    name: string,
    priority: int32,
    injectEnvVars: bool,
    tracingEndpoint: string,
    samplingRate: string)

  datatype SecurityBaseline = SecurityBaseline(
    name: string,
    runAsNonRoot: bool,
    readOnlyRootFilesystem: bool,
    excludedNamespaces: seq<string>)

  datatype Deployment = Deployment(key: Key, annotations: map<string, string>)

  /** The canonical form that resource.ParseQuantity yields; nothing here looks inside it. */
  datatype Quantity = Quantity(canonical: string)

  /** resource.ParseQuantity: which strings parse, and to what, is left open. */
  type QuantityParser = string -> Option<Quantity>

  predicate AllParse(parse: QuantityParser, quantities: map<string, string>) {
    forall r | r in quantities :: parse(quantities[r]).Some?
  }

  predicate QuantitiesParse(parse: QuantityParser, spec: WorkloadPolicySpec) {
    AllParse(parse, spec.defaultRequests) && AllParse(parse, spec.defaultLimits)
  }
}
