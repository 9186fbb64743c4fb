/** Records shared by the planner, the provider client and the normalizer. */
module Models {
  import opened Text

  datatype SeedKind = RootDomain | EmailDomain | OrganizationName | IpCidr | OtherKind(name: string)

  datatype Seed = Seed(seedId: string, kind: SeedKind, value: string, note: Option<string>)

  datatype Plan = Plan(
    planId: string,
    taskId: string,
    seedId: string,
    sourceQuery: string,
    queryType: string,
    intent: string,
    pageLimit: int,
    resultLimit: int)

  /** A provider row's port: missing, a number, or text that `int()` refuses. */
  datatype PortField = NoPort | Port(number: int) | BadPort(text: string)

  /** A provider row's confidence: missing, a number, or something that `float()` refuses. */
  datatype ConfidenceField = NoConfidence | Confidence(number: real) | BadConfidence(text: string)

  /** A provider row; `overflows` says that its observation time is a date that the conversion to UTC
      pushes out of range, and `ownership` is the score the ownership rules give it. */
  datatype Row = Row(
    ip: Option<string>,
    host: Option<string>,
    domain: Option<string>,
    port: PortField,
    protocol: Option<string>,
    service: Option<string>,
    product: Option<string>,
    title: Option<string>,
    version: Option<string>,
    firstSeen: Option<string>,
    lastSeen: Option<string>,
    lastUpdate: Option<string>,
    overflows: bool,
    confidence: ConfidenceField,
    ownership: real)

  /** One `fetch` of a plan: rows, or a provider error. */
  datatype Fetched = Rows(rows: seq<Row>) | Failed(message: string, recoverable: bool, code: Option<string>)
}
