/** The parts of the site's records that the modelled client logic reads. */
module Types {

  /** A node (board): its URL name, display title and number of topics. */
  datatype Node = Node(name: string, title: string, topics: int)

  /** A topic; the client's list logic only reads its id. */
  datatype Topic = Topic(id: int, title: string)

  /** A reply to a topic. */
  datatype Reply = Reply(id: int, username: string, content: string)
}
