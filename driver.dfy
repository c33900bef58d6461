/**
 * The MongoDB driver as app/database.js sees it, reduced to outcomes: the
 * network calls are not modelled, only what each of them answers.
 */
module Driver {
  import opened ConnectionString

  /** A MongoClient, known only by the number the registry gave it when it was created. */
  datatype Client = Client(id: nat)

  /** What getConnection hands back: `client.db(database).collection(collection)`. */
  datatype CollectionRef = CollectionRef(client: Client, database: Field, collection: Field)

  /** An error the driver throws: its message and its `code` property (absent, a number or a string). */
  datatype DriverError = DriverError(message: string, code: Field)

  /** The arguments of `new MongoClient(uri, options)`. */
  datatype Dial = Dial(uri: string, options: ClientOptions)

  /** How the creation of a new client ends. */
  datatype OpenOutcome =
      /** The constructor throws (an unparsable URI, say); no client exists to close. */
    | Rejected(error: DriverError)
      /** `client.connect()` throws. */
    | ConnectFailed(error: DriverError)
      /** `client.db('admin').command({ping: 1})` throws after a successful connect. */
    | PingFailed(error: DriverError)
      /** Connect and ping both succeed. */
    | Connected

  /**
   * The driver's answers: whether the ping on an existing client succeeds,
   * and how opening a client with the given URI and options ends.
   */
  datatype Driver = Driver(probe: Client -> bool, open: Dial -> OpenOutcome)
}
