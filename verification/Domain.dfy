/** The value types shared by every layer (app/domain/models.py). */
module Domain {
  import opened Text

  /** The nullable columns of a lead; a field that is null is absent from `values`. */
  datatype Field =
    | CompanyName | ContactName | Email | Phone | Address | City | Country
    | Website | WebsiteDomain

  datatype SourceRef = SourceRef(name: string, url: Option<string>)

  /** What a record says about its company, without where and when it was seen. */
  datatype Payload = Payload(values: map<Field, string>, extra: map<string, Option<string>>)

  datatype NormalizedLead = NormalizedLead(source: SourceRef, collectedAt: int, payload: Payload) {
    function Get(field: Field): Option<string> {
      if field in payload.values then Some(payload.values[field]) else None
    }

    function ExternalId(): Option<string> {
      if "external_id" in payload.extra then payload.extra["external_id"] else None
    }
  }

  datatype ValidationStatus = Valid | Invalid | Unknown
}
