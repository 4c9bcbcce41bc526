/** What retention sees of the audit log. */
module AuditLog {
  import opened Common

  type Digest = string

  /** A reference to a stored payload. `createdAt` is `None` when missing or not a number. */
  datatype Ref = Ref(digest: Digest, createdAt: Option<int>)

  /** A decoded log value, as far as references go: an object that is exactly one valid reference,
      any other object, a list, or a scalar. */
  datatype Json = Reference(ref: Ref) | Object(children: seq<Json>) | List(items: seq<Json>) | Scalar

  /** One log line: its size, its call id when it is a tool-call start or end, and its value when it
      decodes. */
  datatype Line = Line(size: nat, call: string, value: Option<Json>)
}
