/**
 * The network and sensor catalogue of the Monnit API, as the export job sees
 * it: the rows of the `NetworkList` and `SensorList` answers.
 */
module Catalog {

  datatype Option<+T> = None | Some(value: T)

  type NetworkId = int

  /** A network as the job keeps it: `{"NetworkID": .., "NetworkName": ..}`. */
  datatype Network = Network(networkId: NetworkId, networkName: string)

  /** One row of a `NetworkList` answer; the job keeps only its id and name. */
  datatype NetworkRow = NetworkRow(networkId: NetworkId, networkName: string, otherFields: map<string, string>)

  /** One row of a `SensorList` answer; the job keeps only its id. */
  datatype SensorRow = SensorRow(sensorId: nat, otherFields: map<string, string>)

  /**
   * What one catalogue request gives: the `Result` member of the JSON answer
   * (`None` when it is absent), or a request error (transport failure, an
   * error status or an answer that is not JSON).
   */
  datatype Reply<T> = Answered(result: Option<seq<T>>) | RequestFailed

  /** `answer_in_json.get('Result', [])`. */
  function ResultRows<T>(reply: Reply<T>): seq<T>
    requires reply.Answered?
  {
    match reply.result
    case None => []
    case Some(rows) => rows
  }

  /** The projection of a `NetworkList` row to the two fields the job keeps. */
  function ToNetwork(row: NetworkRow): Network
  {
    Network(row.networkId, row.networkName)
  }
}
