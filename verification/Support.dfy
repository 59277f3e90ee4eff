/** Small vocabulary shared by every model: optional values, outcomes that may
    fail, machine-integer bounds and the name rule of the capability registry. */
module Support {

  datatype Option<+T> = None | Some(value: T)

  datatype Result<+T, +E> = Ok(value: T) | Err(error: E)

  const U64_MAX: int := 0xFFFF_FFFF_FFFF_FFFF
  const U32_MAX: int := 0xFFFF_FFFF
  const I64_MAX: int := 0x7FFF_FFFF_FFFF_FFFF

  /** An unsigned 64-bit quantity. Sums are taken over `int`, so every place
      where the program may overflow has to say what happens there. */
  type u64 = x: int | 0 <= x <= 0xFFFF_FFFF_FFFF_FFFF

  type u32 = x: int | 0 <= x <= 0xFFFF_FFFF

  function Max(a: int, b: int): int {
    if a < b then b else a
  }

  predicate NameCharacter(c: char) {
    'a' <= c <= 'z' || '0' <= c <= '9' || c == '_' || c == '-' || c == '.'
  }

  /** 1-64 lower-case ASCII letters, digits, '_', '-' or '.'. */
  predicate ValidName(name: string) {
    && 0 < |name| <= 64
    && forall i :: 0 <= i < |name| ==> NameCharacter(name[i])
  }

  /** A named operation of a named capability. */
  datatype Operation = Operation(capability: string, operation: string)

  predicate ValidOperation(operation: Operation) {
    ValidName(operation.capability) && ValidName(operation.operation)
  }

  /** The actor on whose behalf a call is made, and its tenant. */
  datatype Authority = Authority(actor: string, tenant: Option<string>)

  predicate TenantCharacter(c: char) {
    'a' <= c <= 'z' || 'A' <= c <= 'Z' || '0' <= c <= '9' || c == '.' || c == '_' || c == '-' || c == ':'
  }

  predicate ValidAuthority(authority: Authority) {
    authority.tenant.Some? ==>
      && 0 < |authority.tenant.value| <= 128
      && forall i :: 0 <= i < |authority.tenant.value| ==> TenantCharacter(authority.tenant.value[i])
  }

  /** 1-256 characters, not blank, none of them a control character. */
  predicate ValidIdentity(value: string) {
    && 0 < |value| <= 256
    && (exists i :: 0 <= i < |value| && value[i] != ' ')
    && (forall i :: 0 <= i < |value| ==> ' ' <= value[i] && !('\U{7f}' <= value[i] <= '\U{9f}'))
  }

  /** 64 lower-case hexadecimal digits. */
  predicate ValidSha256(value: string) {
    |value| == 64 && forall i :: 0 <= i < |value| ==> '0' <= value[i] <= '9' || 'a' <= value[i] <= 'f'
  }

  /** 1-128 portable characters: those of a tenant, '/' and perhaps '+'. */
  predicate PortableId(value: string, plus: bool) {
    && 0 < |value| <= 128
    && forall i :: 0 <= i < |value| ==> TenantCharacter(value[i]) || value[i] == '/' || (plus && value[i] == '+')
  }

  ghost predicate Increasing(indexes: seq<nat>) {
    forall j, k :: 0 <= j < k < |indexes| ==> indexes[j] < indexes[k]
  }
}
