/** verifyUID's verdict on a stored uid presented together with a device. */
module VerifyUid {
  import opened Base
  import opened Records

  datatype Reason = UserNotFound | DeviceMismatch | AccountInactive

  /** The reason a uid is rejected, or None when it is valid. The checks run in a fixed
      order: a missing user wins over a device mismatch, which wins over an inactive status. */
  function Rejection(user: Option<User>, deviceHash: string): (r: Option<Reason>)
    ensures r == Some(UserNotFound) <==> user.None?
    ensures r == Some(DeviceMismatch) <==> user.Some? && user.value.deviceHash != deviceHash
    ensures r == Some(AccountInactive) <==>
      user.Some? && user.value.deviceHash == deviceHash && user.value.status != ActiveStatus
    ensures r.None? <==>
      user.Some? && user.value.deviceHash == deviceHash && user.value.status == ActiveStatus
  {
    if user.None? then Some(UserNotFound)
    else if user.value.deviceHash != deviceHash then Some(DeviceMismatch)
    else if user.value.status != ActiveStatus then Some(AccountInactive)
    else None
  }

  function Lookup<K, V>(m: map<K, V>, k: K): (r: Option<V>)
    ensures r.Some? <==> k in m
    ensures r.Some? ==> r.value == m[k]
  {
    if k in m then Some(m[k]) else None
  }
}
