/**
  The order-coordination service of the point-of-sale / kitchen system
  (`PedidoService` in RPC/servidor.py).

  The service owns four pieces of state: the order store `pedidos` (order number to
  record), the FIFO queue `fila` of order numbers, the counter `contador` that
  allocates order numbers, and the single preparation slot `emPreparo`.
  Three remote calls act on it:
  - EnviarPedido (submit): allocates the next number, stores the order as PENDENTE
    and appends its number to the queue;
  - ReceberPedido (claim): moves the queue head into the slot as EM_PREPARO when the
    slot is empty and the head is PENDENTE, re-delivers the slotted order when the
    slot is occupied, and otherwise answers with the sentinel order number 0;
  - AtualizarStatus (update): stores any status on a known order; only "PRONTO" pops
    the queue head (whenever the order is anywhere in the queue) and frees the slot
    (when the slot holds that order).

  Each call is one atomic step. The behaviour is given twice: as pure transition
  functions on the value `Estado`, and as the class `PedidoService`, whose methods
  update its fields in place and are proved to follow the transition functions.
 */
module Pedidos {
  import Decimal

  datatype Option<T> = None | Some(value: T)

  /** An order record (the `Pedido` message). The status is free text. */
  datatype Pedido = Pedido(numeroPedido: int, cliente: string, itens: seq<string>, status: string)

  /** The reply of submit and update (the `RespostaPedido` message). */
  datatype RespostaPedido = RespostaPedido(sucesso: bool, mensagem: string, numeroPedido: int)

  const PENDENTE: string := "PENDENTE"
  const EM_PREPARO: string := "EM_PREPARO"
  const PRONTO: string := "PRONTO"
  const SEM_PEDIDOS: string := "SEM_PEDIDOS"

  /** What a claim returns when there is nothing to hand out. */
  const SemPedidos: Pedido := Pedido(0, "", [], SEM_PEDIDOS)

  /** The reply to a submission: the order number between a fixed opening and a
      fixed closing text. */
  function MensagemRecebido(n: int): (m: string)
    ensures |m| == 8 + |Decimal.IntToDecimal(n)| + 22
    ensures m[..8] == "Pedido #" && m[|m| - 22..] == " recebido com sucesso!"
  {
    "Pedido #" + Decimal.IntToDecimal(n) + " recebido com sucesso!"
  }

  /** The reply to a successful update: the order number, then the new status. */
  function MensagemAtualizado(n: int, status: string): (m: string)
    ensures |m| == 18 + |Decimal.IntToDecimal(n)| + 17 + |status|
    ensures m[..18] == "Status do pedido #" && m[|m| - |status|..] == status
  {
    "Status do pedido #" + Decimal.IntToDecimal(n) + " atualizado para " + status
  }

  /** The reply to an update of an unknown order. */
  function MensagemNaoEncontrado(n: int): (m: string)
    ensures |m| == 8 + |Decimal.IntToDecimal(n)| + 15
    ensures m[..8] == "Pedido #" && m[|m| - 15..] == " não encontrado"
  {
    "Pedido #" + Decimal.IntToDecimal(n) + " não encontrado"
  }

  /** The number in a submission reply parses back to the order number. */
  lemma MensagemRecebidoNumero(n: int)
    ensures var m := MensagemRecebido(n); Decimal.ParseInt(m[8..|m| - 22]) == n
  {
    var m := MensagemRecebido(n);
    assert m[8..|m| - 22] == Decimal.IntToDecimal(n);
    Decimal.IntToDecimalRoundTrip(n);
  }

  /** The number in an update reply parses back to the order number. */
  lemma MensagemAtualizadoNumero(n: int, status: string)
    ensures var m := MensagemAtualizado(n, status);
              Decimal.ParseInt(m[18..|m| - 17 - |status|]) == n
  {
    var m := MensagemAtualizado(n, status);
    assert m[18..|m| - 17 - |status|] == Decimal.IntToDecimal(n);
    Decimal.IntToDecimalRoundTrip(n);
  }

  /** The number in a not-found reply parses back to the order number. */
  lemma MensagemNaoEncontradoNumero(n: int)
    ensures var m := MensagemNaoEncontrado(n); Decimal.ParseInt(m[8..|m| - 15]) == n
  {
    var m := MensagemNaoEncontrado(n);
    assert m[8..|m| - 15] == Decimal.IntToDecimal(n);
    Decimal.IntToDecimalRoundTrip(n);
  }

  /** Each submission reply names exactly one order number. */
  lemma MensagemRecebidoInjetiva(m: int, n: int)
    requires MensagemRecebido(m) == MensagemRecebido(n)
    ensures m == n
  {
    MensagemRecebidoNumero(m);
    MensagemRecebidoNumero(n);
  }

  /** For one status, each update reply names exactly one order number. */
  lemma MensagemAtualizadoInjetiva(m: int, n: int, status: string)
    requires MensagemAtualizado(m, status) == MensagemAtualizado(n, status)
    ensures m == n
  {
    MensagemAtualizadoNumero(m, status);
    MensagemAtualizadoNumero(n, status);
  }

  /** Each not-found reply names exactly one order number. */
  lemma MensagemNaoEncontradoInjetiva(m: int, n: int)
    requires MensagemNaoEncontrado(m) == MensagemNaoEncontrado(n)
    ensures m == n
  {
    MensagemNaoEncontradoNumero(m);
    MensagemNaoEncontradoNumero(n);
  }

  /** The replies for order 1, as the text a caller reads. */
  lemma MensagemRecebido1()
    ensures MensagemRecebido(1) == "Pedido #1 recebido com sucesso!"
  {
    Decimal.IntToDecimalOne();
  }

  lemma MensagemAtualizado1()
    ensures MensagemAtualizado(1, PRONTO) == "Status do pedido #1 atualizado para PRONTO"
  {
    Decimal.IntToDecimalOne();
  }

  lemma MensagemNaoEncontrado1()
    ensures MensagemNaoEncontrado(1) == "Pedido #1 não encontrado"
  {
    Decimal.IntToDecimalOne();
  }

  /** The whole shared state of the service. */
  datatype Estado = Estado(pedidos: map<int, Pedido>, fila: seq<int>, contador: int, emPreparo: Option<int>)

  /** The state at start-up: nothing stored, empty queue, counter 0, free slot. */
  const Inicial: Estado := Estado(map[], [], 0, None)

  // ---------------------------------------------------------------------------
  // Invariant of every reachable state
  // ---------------------------------------------------------------------------

  /** The stored numbers are exactly 1..contador, each record carrying its own number. */
  ghost predicate NumerosAlocados(e: Estado) {
    && e.contador >= 0
    && (forall k :: k in e.pedidos <==> 1 <= k <= e.contador)
    && (forall k :: k in e.pedidos ==> e.pedidos[k].numeroPedido == k)
  }

  /** Every queue entry names a stored order. */
  ghost predicate FilaConhecida(e: Estado) {
    forall i :: 0 <= i < |e.fila| ==> e.fila[i] in e.pedidos
  }

  /** The queue is strictly increasing, hence free of duplicates. */
  ghost predicate FilaCrescente(fila: seq<int>) {
    forall i, j :: 0 <= i < j < |fila| ==> fila[i] < fila[j]
  }

  /** An occupied slot names a stored order. */
  ghost predicate SlotConhecido(e: Estado) {
    e.emPreparo.Some? ==> e.emPreparo.value in e.pedidos
  }

  ghost predicate Inv(e: Estado) {
    NumerosAlocados(e) && FilaConhecida(e) && FilaCrescente(e.fila) && SlotConhecido(e)
  }

  lemma InicialInv()
    ensures Inv(Inicial)
  {
  }

  /** No record is ever removed and the counter never goes back. */
  ghost predicate Preserva(e: Estado, e': Estado) {
    && e'.contador >= e.contador
    && e.pedidos.Keys <= e'.pedidos.Keys
  }

  // ---------------------------------------------------------------------------
  // The three calls as transition functions
  // ---------------------------------------------------------------------------

  /** EnviarPedido: submit an order. No check is made on `cliente` or `itens`. */
  function Enviar(e: Estado, cliente: string, itens: seq<string>): (r: (Estado, RespostaPedido))
    requires Inv(e)
    ensures Inv(r.0) && Preserva(e, r.0)
    ensures r.1.sucesso && r.1.numeroPedido == e.contador + 1 == r.0.contador
    ensures r.1.mensagem == MensagemRecebido(r.1.numeroPedido)
    ensures r.1.numeroPedido !in e.pedidos
    ensures r.0.pedidos.Keys == e.pedidos.Keys + {r.1.numeroPedido}
    ensures r.0.pedidos[r.1.numeroPedido] == Pedido(r.1.numeroPedido, cliente, itens, PENDENTE)
    ensures forall k :: k in e.pedidos ==> r.0.pedidos[k] == e.pedidos[k]
    ensures r.0.fila == e.fila + [r.1.numeroPedido]
    ensures r.0.emPreparo == e.emPreparo
  {
    var n := e.contador + 1;
    var e' := Estado(e.pedidos[n := Pedido(n, cliente, itens, PENDENTE)], e.fila + [n], n, e.emPreparo);
    assert FilaCrescente(e'.fila) by {
      forall i, j | 0 <= i < j < |e'.fila| ensures e'.fila[i] < e'.fila[j] {
        if j < |e.fila| {
        } else {
          assert e'.fila[i] == e.fila[i] && e.fila[i] in e.pedidos;
        }
      }
    }
    (e', RespostaPedido(true, MensagemRecebido(n), n))
  }

  /** ReceberPedido: the kitchen asks for the next order. */
  function Receber(e: Estado): (r: (Estado, Pedido))
    requires Inv(e)
    ensures Inv(r.0) && Preserva(e, r.0)
    // the queue, the counter and the set of stored numbers never change
    ensures r.0.fila == e.fila && r.0.contador == e.contador && r.0.pedidos.Keys == e.pedidos.Keys
    // claim: the head becomes EM_PREPARO and takes the slot; the queue is not dequeued
    ensures e.emPreparo.None? && |e.fila| > 0 && e.pedidos[e.fila[0]].status == PENDENTE ==>
              && r.1 == e.pedidos[e.fila[0]].(status := EM_PREPARO)
              && r.0.pedidos == e.pedidos[e.fila[0] := r.1]
              && r.0.emPreparo == Some(e.fila[0])
    // re-delivery: the slotted order again, and nothing changes
    ensures e.emPreparo.Some? ==> r.0 == e && r.1 == e.pedidos[e.emPreparo.value]
    // sentinel: nothing claimable, and nothing changes
    ensures e.emPreparo.None? && (|e.fila| == 0 || e.pedidos[e.fila[0]].status != PENDENTE) ==>
              r.0 == e && r.1 == SemPedidos
    // whatever is handed out is the stored record of the order now in the slot
    ensures r.1.numeroPedido != 0 ==>
              r.0.emPreparo == Some(r.1.numeroPedido) && r.0.pedidos[r.1.numeroPedido] == r.1
    ensures r.1.numeroPedido == 0 ==> r.0 == e && r.1 == SemPedidos
  {
    if e.emPreparo.None? && |e.fila| > 0 then
      var numero := e.fila[0];
      var pedido := e.pedidos[numero];
      if pedido.status == PENDENTE then
        var pedido' := pedido.(status := EM_PREPARO);
        (Estado(e.pedidos[numero := pedido'], e.fila, e.contador, Some(numero)), pedido')
      else
        (e, SemPedidos)
    else if e.emPreparo.Some? then
      assert e.pedidos[e.emPreparo.value].numeroPedido == e.emPreparo.value;
      (e, e.pedidos[e.emPreparo.value])
    else
      (e, SemPedidos)
  }

  /** AtualizarStatus: store a new status on an order. */
  function Atualizar(e: Estado, numeroPedido: int, novoStatus: string): (r: (Estado, RespostaPedido))
    requires Inv(e)
    ensures Inv(r.0) && Preserva(e, r.0)
    ensures r.1.numeroPedido == numeroPedido
    ensures r.1.sucesso <==> numeroPedido in e.pedidos
    // unknown order: failure, and no state changes
    ensures numeroPedido !in e.pedidos ==>
              r.0 == e && r.1.mensagem == MensagemNaoEncontrado(numeroPedido)
    // known order: only its status changes in the store
    ensures numeroPedido in e.pedidos ==>
              && r.1.mensagem == MensagemAtualizado(numeroPedido, novoStatus)
              && r.0.pedidos == e.pedidos[numeroPedido := e.pedidos[numeroPedido].(status := novoStatus)]
              && r.0.contador == e.contador
    // "PRONTO" on an order found anywhere in the queue pops the queue HEAD
    ensures numeroPedido in e.pedidos ==>
              r.0.fila == if novoStatus == PRONTO && numeroPedido in e.fila then e.fila[1..] else e.fila
    // "PRONTO" on the slotted order frees the slot
    ensures numeroPedido in e.pedidos ==>
              r.0.emPreparo == if novoStatus == PRONTO && e.emPreparo == Some(numeroPedido) then None else e.emPreparo
  {
    if numeroPedido in e.pedidos then
      var pedidos' := e.pedidos[numeroPedido := e.pedidos[numeroPedido].(status := novoStatus)];
      var fila' := if novoStatus == PRONTO && numeroPedido in e.fila then e.fila[1..] else e.fila;
      var slot' := if novoStatus == PRONTO && e.emPreparo == Some(numeroPedido) then None else e.emPreparo;
      (Estado(pedidos', fila', e.contador, slot'),
       RespostaPedido(true, MensagemAtualizado(numeroPedido, novoStatus), numeroPedido))
    else
      (e, RespostaPedido(false, MensagemNaoEncontrado(numeroPedido), numeroPedido))
  }

  // ---------------------------------------------------------------------------
  // Properties of single calls
  // ---------------------------------------------------------------------------

  /** Claiming while the slot is occupied re-delivers the same order: a second claim
      right after a successful claim returns the same record and changes nothing. */
  lemma ReceberIdempotente(e: Estado)
    requires Inv(e)
    requires Receber(e).1.numeroPedido != 0
    ensures Receber(Receber(e).0) == Receber(e)
  {
  }

  /** "PRONTO" on the order at the queue head removes exactly that order from the queue. */
  lemma ProntoNaCabeca(e: Estado)
    requires Inv(e) && |e.fila| > 0
    ensures var e' := Atualizar(e, e.fila[0], PRONTO).0;
              e.fila[0] !in e'.fila && e'.fila == e.fila[1..]
  {
  }

  /** The quirk of the source: "PRONTO" on an order that is in the queue but not at its
      head removes the head (which may still be PENDENTE) and leaves the order itself
      queued. */
  lemma ProntoForaDaCabeca(e: Estado, n: int)
    requires Inv(e) && n in e.fila && n != e.fila[0]
    ensures var e' := Atualizar(e, n, PRONTO).0;
              e.fila[0] !in e'.fila && n in e'.fila && e'.pedidos[e.fila[0]] == e.pedidos[e.fila[0]]
  {
  }

  /** A concrete run of the quirk: two orders submitted, order 2 marked PRONTO; order 1,
      still PENDENTE, leaves the queue and order 2 stays in it. */
  lemma ProntoDescartaPendente()
    ensures var e1 := Enviar(Inicial, "Ana", ["Pizza"]).0;
            var e2 := Enviar(e1, "Bia", ["Suco"]).0;
            var e3 := Atualizar(e2, 2, PRONTO).0;
            && e3.fila == [2] && e3.pedidos[1].status == PENDENTE
            && Receber(e3) == (e3, SemPedidos)
  {
  }

  /** A queue head that is not PENDENTE blocks every claim while the slot is free: the
      claim answers with the sentinel and changes nothing, however many orders wait. */
  lemma CabecaBloqueada(e: Estado)
    requires Inv(e) && e.emPreparo.None? && |e.fila| > 0
    requires e.pedidos[e.fila[0]].status != PENDENTE
    ensures Receber(e) == (e, SemPedidos)
  {
  }

  /** Any status other than PENDENTE and PRONTO written on the queue head leaves it in
      the queue and so blocks the following claims. */
  lemma OutroStatusNaCabecaBloqueia(e: Estado, s: string)
    requires Inv(e) && e.emPreparo.None? && |e.fila| > 0
    requires s != PENDENTE && s != PRONTO
    ensures var e' := Atualizar(e, e.fila[0], s).0;
              e'.fila == e.fila && Receber(e') == (e', SemPedidos)
  {
  }

  /** Any status but "PRONTO" leaves the queue and the slot alone. */
  lemma OutroStatus(e: Estado, n: int, s: string)
    requires Inv(e) && s != PRONTO
    ensures var e' := Atualizar(e, n, s).0; e'.fila == e.fila && e'.emPreparo == e.emPreparo
  {
  }

  // ---------------------------------------------------------------------------
  // Runs: any sequence of calls
  // ---------------------------------------------------------------------------

  datatype Chamada =
    | EnviarPedido(cliente: string, itens: seq<string>)
    | ReceberPedido
    | AtualizarStatus(numeroPedido: int, novoStatus: string)

  /** One call of any kind; the counter grows by one exactly on a submission. */
  function Passo(e: Estado, c: Chamada): (e': Estado)
    requires Inv(e)
    ensures Inv(e') && Preserva(e, e')
    ensures e'.contador == e.contador + (if c.EnviarPedido? then 1 else 0)
  {
    match c
    case EnviarPedido(cliente, itens) => Enviar(e, cliente, itens).0
    case ReceberPedido => Receber(e).0
    case AtualizarStatus(n, s) => Atualizar(e, n, s).0
  }

  function Submissoes(cs: seq<Chamada>): nat {
    if cs == [] then 0 else (if cs[0].EnviarPedido? then 1 else 0) + Submissoes(cs[1..])
  }

  /** Runs the calls in order; returns the final state and the numbers that the
      submissions' replies carry, in order. Every run keeps the invariant, removes no record, and
      hands out the consecutive numbers after the starting counter: no number twice,
      none skipped. */
  function Executar(e: Estado, cs: seq<Chamada>): (r: (Estado, seq<int>))
    requires Inv(e)
    ensures Inv(r.0) && Preserva(e, r.0)
    ensures |r.1| == Submissoes(cs) && r.0.contador == e.contador + |r.1|
    ensures forall i :: 0 <= i < |r.1| ==> r.1[i] == e.contador + 1 + i
    decreases |cs|
  {
    if cs == [] then (e, [])
    else
      var e1 := Passo(e, cs[0]);
      var resto := Executar(e1, cs[1..]);
      var ids := if cs[0].EnviarPedido? then [Enviar(e, cs[0].cliente, cs[0].itens).1.numeroPedido] + resto.1
                 else resto.1;
      (resto.0, ids)
  }

  /** From start-up, N submissions among any other calls receive exactly the numbers
      1..N, and the store holds exactly those numbers. */
  lemma NumerosDesdeInicio(cs: seq<Chamada>)
    ensures var r := Executar(Inicial, cs);
              && |r.1| == Submissoes(cs)
              && (forall i :: 0 <= i < |r.1| ==> r.1[i] == i + 1)
              && (forall k :: k in r.0.pedidos <==> 1 <= k <= Submissoes(cs))
  {
  }

  /** The reference scenario: Ana orders Pizza and Soda and gets number 1; the kitchen
      claims it (EM_PREPARO), claims it again while it is in the slot, marks it PRONTO,
      and a further claim gets the sentinel. */
  lemma Cenario()
    ensures var (e1, r1) := Enviar(Inicial, "Ana", ["Pizza", "Soda"]);
            var (e2, p2) := Receber(e1);
            var (e3, p3) := Receber(e2);
            var (e4, r4) := Atualizar(e3, 1, PRONTO);
            var (e5, p5) := Receber(e4);
            && r1.sucesso && r1.numeroPedido == 1
            && r1.mensagem == "Pedido #1 recebido com sucesso!"
            && p2.numeroPedido == 1 && p2.status == EM_PREPARO
            && p3 == p2
            && r4.sucesso && r4.mensagem == "Status do pedido #1 atualizado para PRONTO"
            && p5 == SemPedidos
  {
    MensagemRecebido1();
    MensagemAtualizado1();
  }

  // ---------------------------------------------------------------------------
  // The single preparation slot
  // ---------------------------------------------------------------------------

  /** Every order in preparation is the one in the slot, so at most one order is
      EM_PREPARO at a time. */
  ghost predicate PreparoNoSlot(e: Estado) {
    forall k :: k in e.pedidos && e.pedidos[k].status == EM_PREPARO ==> e.emPreparo == Some(k)
  }

  /** An occupied slot names an order that is EM_PREPARO. */
  ghost predicate SlotEmPreparo(e: Estado) {
    e.emPreparo.Some? ==> e.emPreparo.value in e.pedidos && e.pedidos[e.emPreparo.value].status == EM_PREPARO
  }

  /** The update is free to write any status, EM_PREPARO included: two submitted orders
      both marked EM_PREPARO are both in preparation, and neither is in the slot. */
  lemma DoisEmPreparo()
    ensures var e1 := Enviar(Inicial, "Ana", ["Pizza"]).0;
            var e2 := Enviar(e1, "Bia", ["Suco"]).0;
            var e3 := Atualizar(e2, 1, EM_PREPARO).0;
            var e4 := Atualizar(e3, 2, EM_PREPARO).0;
            && PreparoNoSlot(e2) && SlotEmPreparo(e2)
            && e4.pedidos[1].status == EM_PREPARO && e4.pedidos[2].status == EM_PREPARO
            && e4.emPreparo.None? && !PreparoNoSlot(e4)
  {
  }

  /** The calls that never write EM_PREPARO through an update. */
  predicate SemEmPreparo(c: Chamada) {
    c.AtualizarStatus? ==> c.novoStatus != EM_PREPARO
  }

  /** The calls whose updates, if any, write PRONTO, as the kitchen client does. */
  predicate SoPronto(c: Chamada) {
    c.AtualizarStatus? ==> c.novoStatus == PRONTO
  }

  /** Only a claim makes an order EM_PREPARO, and it puts that order in the slot. */
  lemma PassoPreparoNoSlot(e: Estado, c: Chamada)
    requires Inv(e) && PreparoNoSlot(e) && SemEmPreparo(c)
    ensures PreparoNoSlot(Passo(e, c))
  {
    match c
    case EnviarPedido(cliente, itens) =>
    case ReceberPedido =>
      if e.emPreparo.None? && |e.fila| > 0 && e.pedidos[e.fila[0]].status == PENDENTE {
        var e' := Receber(e).0;
        assert forall k :: k in e.pedidos && k != e.fila[0] ==> e'.pedidos[k] == e.pedidos[k];
      }
    case AtualizarStatus(n, s) =>
      if n in e.pedidos {
        var e' := Atualizar(e, n, s).0;
        forall k | k in e'.pedidos && e'.pedidos[k].status == EM_PREPARO
          ensures e'.emPreparo == Some(k)
        {
          assert k != n && e.pedidos[k] == e'.pedidos[k];
        }
      }
  }

  /** With updates that write only PRONTO, the slot is freed exactly when its order is
      marked PRONTO, so an occupied slot always holds an order in preparation. */
  lemma PassoSlotEmPreparo(e: Estado, c: Chamada)
    requires Inv(e) && SlotEmPreparo(e) && SoPronto(c)
    ensures SlotEmPreparo(Passo(e, c))
  {
  }

  /** A run whose updates never write EM_PREPARO keeps every order in preparation in the
      slot. */
  lemma {:induction false} ExecutarPreparoNoSlot(e: Estado, cs: seq<Chamada>)
    requires Inv(e) && PreparoNoSlot(e)
    requires forall i :: 0 <= i < |cs| ==> SemEmPreparo(cs[i])
    ensures PreparoNoSlot(Executar(e, cs).0)
    decreases |cs|
  {
    if cs != [] {
      PassoPreparoNoSlot(e, cs[0]);
      assert forall i :: 0 <= i < |cs[1..]| ==> cs[1..][i] == cs[i + 1];
      ExecutarPreparoNoSlot(Passo(e, cs[0]), cs[1..]);
    }
  }

  /** A run whose updates write only PRONTO also keeps the slot holding an order in
      preparation. */
  lemma {:induction false} ExecutarSlotEmPreparo(e: Estado, cs: seq<Chamada>)
    requires Inv(e) && SlotEmPreparo(e)
    requires forall i :: 0 <= i < |cs| ==> SoPronto(cs[i])
    ensures SlotEmPreparo(Executar(e, cs).0)
    decreases |cs|
  {
    if cs != [] {
      PassoSlotEmPreparo(e, cs[0]);
      assert forall i :: 0 <= i < |cs[1..]| ==> cs[1..][i] == cs[i + 1];
      ExecutarSlotEmPreparo(Passo(e, cs[0]), cs[1..]);
    }
  }

  /** From start-up, with the kitchen writing only PRONTO, an order is EM_PREPARO exactly
      when it is the one in the slot. */
  lemma UmEmPreparoDesdeInicio(cs: seq<Chamada>)
    requires forall i :: 0 <= i < |cs| ==> SoPronto(cs[i])
    ensures var e := Executar(Inicial, cs).0;
              forall k :: k in e.pedidos ==> (e.pedidos[k].status == EM_PREPARO <==> e.emPreparo == Some(k))
  {
    assert PRONTO != EM_PREPARO by { assert PRONTO[0] != EM_PREPARO[0]; }
    InicialInv();
    assert PreparoNoSlot(Inicial) && SlotEmPreparo(Inicial);
    ExecutarPreparoNoSlot(Inicial, cs);
    ExecutarSlotEmPreparo(Inicial, cs);
    var e := Executar(Inicial, cs).0;
    assert PreparoNoSlot(e) && SlotEmPreparo(e);
  }

  // ---------------------------------------------------------------------------
  // The service object, updated in place
  // ---------------------------------------------------------------------------

  class PedidoService {
    var pedidos: map<int, Pedido>
    var fila: seq<int>
    var contador: int
    var emPreparo: Option<int>

    /** The current state as a value. */
    function Atual(): Estado
      reads this
    {
      Estado(pedidos, fila, contador, emPreparo)
    }

    ghost predicate Valid()
      reads this
    {
      Inv(Atual())
    }

    constructor ()
      ensures Valid() && Atual() == Inicial
    {
      pedidos, fila, contador, emPreparo := map[], [], 0, None;
    }

    method EnviarPedido(cliente: string, itens: seq<string>) returns (r: RespostaPedido)
      requires Valid()
      modifies this
      ensures Valid()
      ensures (Atual(), r) == Enviar(old(Atual()), cliente, itens)
      ensures contador == old(contador) + 1
      ensures r == RespostaPedido(true, MensagemRecebido(contador), contador)
      ensures pedidos == old(pedidos)[contador := Pedido(contador, cliente, itens, PENDENTE)]
      ensures fila == old(fila) + [contador] && emPreparo == old(emPreparo)
    {
      contador := contador + 1;
      var pedido := Pedido(contador, cliente, itens, PENDENTE);
      pedidos := pedidos[contador := pedido];
      fila := fila + [contador];
      r := RespostaPedido(true, MensagemRecebido(contador), contador);
    }

    method ReceberPedido() returns (p: Pedido)
      requires Valid()
      modifies this
      ensures Valid()
      ensures (Atual(), p) == Receber(old(Atual()))
      ensures fila == old(fila) && contador == old(contador)
      ensures old(emPreparo).Some? ==> p == pedidos[emPreparo.value] && unchanged(this)
      ensures p.numeroPedido == 0 ==> p == SemPedidos && unchanged(this)
      ensures p.numeroPedido != 0 ==> emPreparo == Some(p.numeroPedido) && pedidos[p.numeroPedido] == p
    {
      if emPreparo.None? && |fila| > 0 {
        var numero := fila[0];
        var pedido := pedidos[numero];
        if pedido.status == PENDENTE {
          pedido := pedido.(status := EM_PREPARO);
          pedidos := pedidos[numero := pedido];
          emPreparo := Some(numero);
          return pedido;
        }
      } else if emPreparo.Some? {
        return pedidos[emPreparo.value];
      }
      return SemPedidos;
    }

    method AtualizarStatus(numeroPedido: int, novoStatus: string) returns (r: RespostaPedido)
      requires Valid()
      modifies this
      ensures Valid()
      ensures (Atual(), r) == Atualizar(old(Atual()), numeroPedido, novoStatus)
      ensures r.numeroPedido == numeroPedido && (r.sucesso <==> numeroPedido in old(pedidos))
      ensures numeroPedido !in old(pedidos) ==> unchanged(this)
      ensures numeroPedido in old(pedidos) ==>
                pedidos == old(pedidos)[numeroPedido := old(pedidos)[numeroPedido].(status := novoStatus)]
      ensures contador == old(contador)
    {
      if numeroPedido in pedidos {
        var pedido := pedidos[numeroPedido].(status := novoStatus);
        pedidos := pedidos[numeroPedido := pedido];
        if novoStatus == PRONTO {
          if numeroPedido in fila {
            fila := fila[1..];
          }
          if emPreparo == Some(numeroPedido) {
            emPreparo := None;
          }
        }
        return RespostaPedido(true, MensagemAtualizado(numeroPedido, novoStatus), numeroPedido);
      }
      return RespostaPedido(false, MensagemNaoEncontrado(numeroPedido), numeroPedido);
    }
  }
}
