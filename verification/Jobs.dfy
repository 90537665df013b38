/** Names shared by the queue models. A job is identified by the Push call that submitted it. */
module Jobs {

  type JobId = nat

  datatype Option<+T> = None | Some(value: T)
}
