/** The inbound seam: normalized messages, the idempotency log and the stream
    the webhook handlers write to. */
module Channels {

  datatype Channel = WhatsApp | Telegram | Messenger | Instagram | Email

  datatype Account = Account(id: string, tenant: string, channel: Channel, ref: string)

  datatype InboundMessage =
    InboundMessage(account: Account, channel: Channel, id: string, sender: string, text: string)

  /** SET NX / DEL over one key per provider message id. */
  class EventLog {
    var keys: set<string>

    constructor ()
      ensures keys == {}
    {
      keys := {};
    }

    method Claim(id: string) returns (isNew: bool)
      modifies this
      ensures isNew <==> id !in old(keys)
      ensures keys == old(keys) + {id}
    {
      isNew := id !in keys;
      keys := keys + {id};
    }

    method Release(id: string)
      modifies this
      ensures keys == old(keys) - {id}
    {
      keys := keys - {id};
    }
  }

  /** An append-only stream. Whether one append succeeds is the broker's choice;
      a failed append leaves the stream as it was. */
  class InboundQueue {
    var stream: seq<InboundMessage>

    constructor ()
      ensures stream == []
    {
      stream := [];
    }

    method Publish(message: InboundMessage, accepted: bool) returns (ok: bool)
      modifies this
      ensures ok == accepted
      ensures stream == if ok then old(stream) + [message] else old(stream)
    {
      ok := accepted;
      if ok {
        stream := stream + [message];
      }
    }
  }
}
