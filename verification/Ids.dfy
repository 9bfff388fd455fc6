/** The names of things: users, threads and messages in the database, and the sockets, servers and calls at work. */
module Ids {
  type UserId = nat
  type ThreadId = nat
  type MessageId = nat
  type SocketId = nat
  type ServerId = nat
  type RunId = nat
}
