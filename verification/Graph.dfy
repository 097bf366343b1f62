/** The stored graph node, as models/node.go declares it. */
module Graph {

  datatype Option<+T> = None | Some(value: T)

  /** The six permission bits; a bit that was never set is absent from the store. */
  datatype Bits =
    Bits(r: Option<bool>, w: Option<bool>, o: Option<bool>, i: Option<bool>, d: Option<bool>, s: Option<bool>)

  const NO_BITS := Bits(None, None, None, None, None, None)

  /** `ConvertNullBoolFieldsToFalse` on one bit. */
  function IsSet(bit: Option<bool>): bool { bit == Some(true) }

  /** The client-visible predicates other than the authz ones (`id`, `ty`, `p`, `s1`, `m`, `g`, ...) are in `data`. */
  datatype Node = Node(uid: string, own: Option<string>, sgi: Option<string>, bits: Bits,
                       data: map<string, string>, vec: Option<string>, out: seq<string>)

  function Lookup(m: map<string, string>, key: string): Option<string> {
    if key in m then Some(m[key]) else None
  }

  const SYS_ROLE := "sys"

  /** security.UserAuthData: the caller, as read from a verified bearer token. */
  datatype Caller = Caller(uid: string, role: string, tokenId: string, timestamp: string, key: string) {
    predicate IsAdmin() { role == SYS_ROLE }
  }
}
