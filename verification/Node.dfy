/** The running node: its objects wired together, and the proof that they run as the specification does. */
module Node {
  import opened Types
  import opened Blockchain
  import opened BlockProduction
  import opened ChainSpec
  import opened GatewaySpec
  import opened Runs
  import opened RpcServer
  import PaymentGateway
  import RpcSpec
  import Producer

  class Node {
    const chain: Blockchain
    const producer: BlockProducer
    const rpc: Server

    ghost predicate Valid()
      reads chain, chain.payment
    {
      producer.chain == chain && rpc.bc == chain && rpc.eth.bc == chain && chain.Valid()
    }

    ghost function View(): World
      reads chain, chain.state, chain.txPool, chain.payment, chain.payment.intents.Values, rpc.eth
    {
      chain.View(rpc.eth.View())
    }

    /** Everything a step may write. */
    ghost function Repr(): set<object>
      reads chain.payment
    {
      {chain, chain.state, chain.txPool, chain.payment, rpc.eth} + chain.payment.intents.Values
    }

    constructor (cfg: Config, now: uint64)
      ensures Valid() && chain.cfg == cfg && fresh(Repr())
      ensures View() == Genesis(cfg, now)
    {
      var bc := new Blockchain(cfg, now);
      chain := bc;
      producer := new BlockProducer(bc);
      rpc := new Server(bc);
    }

    /** A gateway call made by a client. */
    method CallGateway(call: ClientCall, now: uint64)
      requires chain.payment.Valid()
      modifies chain.payment, chain.payment.intents.Values
      ensures chain.payment.Valid() && fresh(chain.payment.intents.Values - old(chain.payment.intents.Values))
      ensures chain.payment.Model() == Apply(old(chain.payment.Model()), call, now).0
    {
      var pg := chain.payment;
      match call
      case SetExpirySeconds(seconds) => pg.SetExpirySeconds(seconds);
      case CreateIntent(merchant, amount, token, ts) => var _, _ := pg.CreateIntent(merchant, amount, token, ts);
      case GetIntent(id) => var _, _ := pg.GetIntent(id, now);
      case ListMerchantPayments(merchant) => var _, _ := pg.ListMerchantPayments(merchant, now);
      case PayIntent(id, payer) => var _, _ := pg.PayIntent(id, payer, now);
      case RefundIntent(id) => var _, _ := pg.RefundIntent(id, now);
      case SettleIntent(id) => var _, _ := pg.SettleIntent(id, now);
    }

    /** A transaction enters the pool. */
    method Submit(tx: Tx)
      requires Valid()
      modifies Repr()
      ensures Valid() && fresh(Repr() - old(Repr()))
      ensures View() == Step(chain.cfg, old(View()), AddTx(tx))
    {
      var _ := chain.txPool.Add(Some(tx));
    }

    /** The producer's ticker fires. */
    method Tick(time: uint64, clock: Producer.Clock)
      requires Valid()
      modifies Repr()
      ensures Valid() && fresh(Repr() - old(Repr()))
      ensures View() == Step(chain.cfg, old(View()), ProduceBlock(time, clock))
    {
      producer.Produce(time, clock, rpc.eth.View());
    }

    /** A client calls the gateway. */
    method Client(call: ClientCall, now: uint64)
      requires Valid()
      modifies Repr()
      ensures Valid() && fresh(Repr() - old(Repr()))
      ensures View() == Step(chain.cfg, old(View()), GatewayOp(call, now))
    {
      CallGateway(call, now);
    }

    /** A ledger request arrives. */
    method Request(req: RpcSpec.Request)
      requires Valid()
      modifies Repr()
      ensures Valid() && fresh(Repr() - old(Repr()))
      ensures View() == Step(chain.cfg, old(View()), Rpc(req))
    {
      var _ := rpc.Dispatch(req);
    }

    /** A raw transaction arrives. */
    method RawSend(tx: EthTx, now: uint64)
      requires Valid()
      modifies Repr()
      ensures Valid() && fresh(Repr() - old(Repr()))
      ensures View() == Step(chain.cfg, old(View()), EthSendRaw(tx, now))
    {
      var _ := rpc.eth.SendRawTransaction(tx, now);
    }

    /** One step of the node on its live objects is one step of the specification. */
    method Perform(op: Op)
      requires Valid()
      modifies Repr()
      ensures Valid() && fresh(Repr() - old(Repr()))
      ensures View() == Step(chain.cfg, old(View()), op)
    {
      match op
      case AddTx(tx) => Submit(tx);
      case ProduceBlock(time, clock) => Tick(time, clock);
      case GatewayOp(call, now) => Client(call, now);
      case Rpc(req) => Request(req);
      case EthSendRaw(tx, now) => RawSend(tx, now);
    }

    /** The next operation of a run. */
    method Advance(ops: seq<Op>, i: nat, ghost time: uint64)
      requires i < |ops| && Valid() && View() == After(chain.cfg, time, ops[..i])
      modifies Repr()
      ensures Valid() && fresh(Repr() - old(Repr()))
      ensures View() == After(chain.cfg, time, ops[..i + 1])
    {
      AfterNext(chain.cfg, time, ops, i);
      Perform(ops[i]);
    }

    /** The operations of a run, one after the other. */
    method Drive(ops: seq<Op>, ghost time: uint64)
      requires Valid() && View() == Genesis(chain.cfg, time)
      modifies Repr()
      ensures Valid() && View() == After(chain.cfg, time, ops)
    {
      var i := 0;
      while i < |ops|
        invariant 0 <= i <= |ops| && Valid() && fresh(Repr() - old(Repr()))
        invariant View() == After(chain.cfg, time, ops[..i])
      {
        Advance(ops, i, time);
        i := i + 1;
      }
      assert ops[..i] == ops;
    }
  }

  /** Refinement: the node built from its objects and driven through any run ends in the specified state. */
  method RunNode(cfg: Config, time: uint64, ops: seq<Op>) returns (node: Node)
    ensures node.Valid() && node.chain.cfg == cfg
    ensures node.View() == After(cfg, time, ops)
  {
    node := new Node(cfg, time);
    node.Drive(ops, time);
  }
}
