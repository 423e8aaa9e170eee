/** Messages by identity, with the parts of them that ordering and routing look at. */
module Messages {

  type Priority = n: nat | n < 256

  datatype Message = Message(id: nat, priority: Priority, routingKey: string)
}
