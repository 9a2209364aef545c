/**
 A broker's book and a subscriber's book side by side, from the listing the
 subscriber starts from and through every update the broker broadcasts.
 */
module BookReplication {
  import opened Books
  import opened BookAgreement
  import opened LocalAgreement
  import B = BrokerOrderBook
  import C = ClientOrderBook

  function GlobalKind(side: Side): B.BookType { if side.Bid? then B.GlobalBid else B.GlobalAsk }

  function LocalKind(side: Side): B.BookType { if side.Bid? then B.LocalBid else B.LocalAsk }

  ghost function GlobalOf(broker: B.OrderBook, side: Side): Levels
    reads broker
  {
    if side.Bid? then broker.globalBid else broker.globalAsk
  }

  ghost function LocalOf(broker: B.OrderBook, side: Side): Levels
    reads broker
  {
    if side.Bid? then broker.localBid else broker.localAsk
  }

  /** The listing makes the subscriber's global book a replica of the broker's. */
  method SubscribeGlobal(broker: B.OrderBook, client: C.OrderBook)
    requires client.global && BookOk(GlobalOf(broker, client.side))
    modifies client
    ensures GlobalReplica(client.side, client.entries, GlobalOf(broker, client.side))
  {
    var book := if client.side.Bid? then broker.globalBid else broker.globalAsk;
    var list := B.SendOrderBook(client.side, book);
    client.SetOrderBook(list);
  }

  /** It makes the local book one exactly when no price has two destinations. */
  method SubscribeLocal(broker: B.OrderBook, client: C.OrderBook)
    requires !client.global && LocalBookOk(LocalOf(broker, client.side))
    modifies client
    ensures LocalReplica(client.side, client.entries, LocalOf(broker, client.side))
        <==> Unshared(LocalOf(broker, client.side))
  {
    var book := if client.side.Bid? then broker.localBid else broker.localAsk;
    var list := B.SendOrderBook(client.side, book);
    ListingIsReplicaIffUnshared(client.side, list, book);
    client.SetOrderBook(list);
  }

  /** However many updates the broker works off, the subscriber that receives what it
      broadcasts still holds the same global book. */
  method FollowGlobal(broker: B.OrderBook, client: C.OrderBook, buffer: seq<B.BookUpdate>)
    requires client.global && GlobalReplica(client.side, client.entries, GlobalOf(broker, client.side))
    modifies broker, client
    ensures GlobalReplica(client.side, client.entries, GlobalOf(broker, client.side))
  {
    hide GlobalReplica, ReceiveAllGlobal, SaveAllGlobal, SaveAllLocal, B.Updates;
    ghost var side, list, book := client.side, client.entries, GlobalOf(broker, client.side);
    var broadcast := broker.ProcessAll(buffer);
    var history := B.Updates(broadcast, GlobalKind(client.side));
    GlobalBooksAgree(side, list, book, history);
    client.ReceiveAll(history);
  }

  /** The same local book, as long as no update clashes. */
  method FollowLocal(broker: B.OrderBook, client: C.OrderBook, buffer: seq<B.BookUpdate>)
    requires !client.global && LocalReplica(client.side, client.entries, LocalOf(broker, client.side))
    requires ClashFree(client.side, client.entries, B.Updates(buffer, LocalKind(client.side)))
    modifies broker, client
    ensures LocalReplica(client.side, client.entries, LocalOf(broker, client.side))
  {
    ghost var side, list, book := client.side, client.entries, LocalOf(broker, client.side);
    var broadcast := broker.ProcessAll(buffer);
    var history := B.Updates(broadcast, LocalKind(client.side));
    LocalBooksAgreeIffClashFree(side, list, book, history);
    assert history[..|history|] == history;
    hide LocalReplica, ReceiveAllLocal, SaveAllGlobal, SaveAllLocal, B.Updates, ClashFree;
    client.ReceiveAll(history);
  }
}
