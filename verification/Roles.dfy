/** The role a stored representation plays in its entry. */
module Roles {

  datatype Role = Primary | PlainFallback | Alternative

  function Rank(r: Role): nat {
    match r
    case Primary => 0
    case PlainFallback => 1
    case Alternative => 2
  }

  function RoleName(r: Role): (s: string)
    ensures |s| <= 14
  {
    match r
    case Primary => "primary"
    case PlainFallback => "plain_fallback"
    case Alternative => "alternative"
  }
}
