/** Values exchanged between the broker, the consumer loop and the read API. */
module KafkaModel {

  /** A byte array on the wire (Java `byte[]`). */
  type Bytes = seq<bv8>

  /** A value that may be absent (Java `null`). */
  datatype Option<T> = None | Some(value: T)

  /** Kafka's `TopicPartition`: a topic name and a partition index. */
  datatype TopicPartition = TopicPartition(topic: string, partition: int)

  /**
   * One polled `ConsumerRecord<String, byte[]>`. The value may be null
   * (a tombstone on the log); the key is a non-null string.
   */
  datatype Record = Record(topic: string, partition: int, offset: int, key: string, value: Option<Bytes>)
  {
    function Partition(): TopicPartition
    {
      TopicPartition(topic, partition)
    }

    /** The `UpdateRecord` built from this record: everything but the value. */
    function Update(): UpdateRecord
    {
      UpdateRecord(topic, partition, offset, key)
    }
  }

  /** What the loop hands to `OnUpdate.handle`. */
  datatype UpdateRecord = UpdateRecord(topic: string, partition: int, offset: int, key: string)
  {
    function Partition(): TopicPartition
    {
      TopicPartition(topic, partition)
    }
  }
}
