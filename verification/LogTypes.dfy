/** Data shared by the producer and the consumer of the distributed log. */
module LogTypes {
  datatype TopicPartition = TopicPartition(topic: string, partition: nat)
}
