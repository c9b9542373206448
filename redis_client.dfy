/**
 * The remote keyspace seen through the injected client. Each command the
 * key store issues is modelled as the map operation it performs on the
 * server; the network, replies over the wire and connection failures are not
 * modelled.
 */
module RedisClient {
  import opened Outcomes

  class Redis {
    /** Every key the server holds, with its string value. */
    var data: map<string, string>

    constructor (initial: map<string, string>)
      ensures data == initial
    {
      data := initial;
    }

    /** SET key value */
    method Set(key: string, value: string)
      modifies this
      ensures data == old(data)[key := value]
    {
      data := data[key := value];
    }

    /** GET key: the stored string, or nil when the key is absent. */
    method Get(key: string) returns (reply: Option<string>)
      ensures reply.Some? <==> key in data
      ensures reply.Some? ==> reply.value == data[key]
    {
      reply := if key in data then Some(data[key]) else None;
    }

    /** DEL key: the number of keys removed. */
    method Del(key: string) returns (removed: nat)
      modifies this
      ensures data == old(data) - {key}
      ensures removed == if key in old(data) then 1 else 0
    {
      removed := if key in data then 1 else 0;
      data := data - {key};
    }

    /** EXISTS key: the number of the given keys that exist. */
    method Exists(key: string) returns (count: nat)
      ensures count <= 1
      ensures count == 1 <==> key in data
    {
      count := if key in data then 1 else 0;
    }
  }
}
