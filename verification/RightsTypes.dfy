/** The vocabulary of packages/storage/native-probe/src/rights-model.h.  Bit masks are sets, so
    `|=` is union and `& ~` is difference; the texts of `reason` are left out. */
module RightsTypes {
  import opened Options

  datatype Perm = Read | Write | Execute

  datatype Risk = ReadContent | ChangeNamespace | ChangeMetadata | DeleteObject | DeleteChild | Traverse

  datatype RightsState = Satisfied | Violated | Unavailable | Unsupported

  datatype RightsCheck = RightsCheck(state: RightsState, osCode: nat)

  const EINVAL: nat := 22
  const ENODATA: nat := 61
  const ENOTSUP: nat := 95

  function Failure(error: nat): RightsCheck {
    RightsCheck(if error == ENOTSUP then Unsupported else Unavailable, error)
  }

  /** The rwx bits of an octal digit. */
  function Bits(n: nat): set<Perm> {
    (if n / 4 % 2 == 1 then {Read} else {}) + (if n / 2 % 2 == 1 then {Write} else {})
        + (if n % 2 == 1 then {Execute} else {})
  }

  function PosixRisks(permissions: set<Perm>): set<Risk> {
    (if Read in permissions then {ReadContent} else {})
    + (if Write in permissions then {ChangeNamespace, DeleteChild} else {})
    + (if Execute in permissions then {Traverse} else {})
  }
}
