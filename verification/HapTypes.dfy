/** What the request handlers share: how a characteristic is named, and the statuses they answer with. */
module HapTypes {
  datatype Id = Id(aid: nat, iid: nat)

  datatype Status =
    | SUCCESS
    | INVALID_VALUE_IN_REQUEST
    | NOTIFICATION_NOT_SUPPORTED
    | INSUFFICIENT_PRIVILEGES
    | READ_ONLY_CHARACTERISTIC
    | INSUFFICIENT_AUTHORIZATION
}
