/** Who is asking (agentcore/types.py, lines 45-78). */
module Principals {
  import opened Text

  datatype Role = Customer | SupportAgent | OperationsAdmin

  /** Who is asking. Staff carry no account. */
  datatype Principal = Principal(tenant: string, user: string, role: Role, account: Option<string>) {
    predicate Valid() {
      role == Customer ==> account.Some? && account.value != ""
    }
  }
}
