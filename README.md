# Order coordination service and Lamport clocks, modelled in Dafny

This project models two parts of a small distributed-systems teaching repository.

**The order-coordination service** (`RPC/servidor.py`) sits between a point-of-sale terminal and a kitchen terminal. It keeps four pieces of state:

- the order store `pedidos`, which maps an order number to its record (customer, items, status);
- the FIFO queue `fila` of order numbers;
- the counter `contador`, which allocates order numbers;
- the single preparation slot `emPreparo`.

It offers three remote calls:

- **EnviarPedido** (submit) allocates the next number. It stores the order as `"PENDENTE"` and appends the number to the queue.
- **ReceberPedido** (claim) acts only when the slot is empty and the queue head is `"PENDENTE"`. The head then becomes `"EM_PREPARO"` and takes the slot. The queue is not dequeued.
  - If the slot is occupied, the slotted order is delivered again.
  - Otherwise the answer is the sentinel order: number 0, status `"SEM_PEDIDOS"`.
- **AtualizarStatus** (update) stores any status text on a known order. Only `"PRONTO"` touches the queue and the slot. It pops the queue head whenever the order is anywhere in the queue, and frees the slot when the slot holds that order.

`pedidos.dfy` (module `Pedidos`) gives each call in two forms. The first is a pure transition function on the state value `Estado`: `Enviar`, `Receber` and `Atualizar`. The second is a method of the class `PedidoService`, which updates its fields in place. Each method is proved to produce exactly the state and reply of its transition function. Each call is one atomic step.

The invariant `Inv` holds in the start-up state and is preserved by every call. It has four parts:

- the stored numbers are exactly `1..contador`, and each record carries its own number;
- every queue entry is a stored order;
- the queue is strictly increasing;
- an occupied slot names a stored order.

The transition functions require `Inv`, so they exclude only states the service can never reach. `Executar` runs any sequence of calls. It shows three things: records are never removed, the counter moves only on a submission, and the submissions receive consecutive numbers.

Reply messages are built with Python's `str(int)`. `decimal.dfy` (module `Decimal`) models that rendering and proves it against a parser.

**Lamport logical clocks** (`exemploLamport/lamport.py`) follow rules IR1 and IR2 of Lamport, "Time, Clocks, and the Ordering of Events in a Distributed System" (1978):

- IR1: a local event or a send increments the clock by one;
- IR2: a receipt sets the clock to `max(local, stamp) + 1`.

`lamport.dfy` (module `Lamport`) models `Process` as a class with a `logicalClock: nat` field and a `mailbox: seq<Message>` field. It also keeps a ghost history of events. Its invariant has two parts:

- the clock equals `ClockAfter(0, history)`, the result of IR1/IR2 over the history;
- every message in the mailbox carries a stamp below the current clock.

### Where the code differs from its own comments and evident intent (the model follows the code)

- Submission does not reject an empty item list. No `InvalidArgument` error exists, and every submission consumes a number.
- The statuses are Portuguese strings: `PENDENTE`, `EM_PREPARO`, `PRONTO`, `SEM_PEDIDOS`. Completion is the literal `"PRONTO"`.
- The queue is commented as the FIFO of pending orders (RPC/servidor.py:22), so the evident intent is that completing an order removes that order from the queue. The code does something else. If the order occurs anywhere in the queue, it pops the head, which may be a different order that is still `PENDENTE` (`ProntoForaDaCabeca`, `ProntoDescartaPendente`).
- A queue head that is not `PENDENTE` blocks every claim while the slot is free. The claim returns the sentinel and changes nothing, however many orders wait behind the head (`CabecaBloqueada`). This happens after the run in `ProntoDescartaPendente`, whose queue is left as [2] with order 2 already `PRONTO`. It also happens after any status other than `PENDENTE` or `PRONTO` is written on the head (`OutroStatusNaCabecaBloqueia`).
- The slot is commented as the one order currently in preparation (RPC/servidor.py:25), so the evident intent is at most one order `EM_PREPARO` at a time. The code does not keep that in general: `AtualizarStatus` stores any status text, `"EM_PREPARO"` included, on any known order, and two orders can then both be `EM_PREPARO` with the slot free (`DoisEmPreparo`). It does hold on every run whose updates never write `"EM_PREPARO"` (`ExecutarPreparoNoSlot`); and from start-up, when updates write only `"PRONTO"` as the kitchen client does (RPC/cozinha.py:44-47), an order is `EM_PREPARO` exactly when it is the one in the slot (`UmEmPreparoDesdeInicio`).

## Model

| member | source | states |
|---|---|---|
| Decimal.NatToDecimal | RPC/servidor.py:58 | the rendering of a natural number is non-empty, all digits, and has no leading zero |
| Decimal.NatToDecimalRoundTrip | RPC/servidor.py:58 | reading the digits of the rendering back gives the number |
| Decimal.IntToDecimal | RPC/servidor.py:122 | the rendering of an integer starts with '-' exactly when it is negative, and is digits otherwise; its digits have no leading zero unless the number is 0, rendered "0" |
| Decimal.IntToDecimalRoundTrip | RPC/servidor.py:127 | parsing the rendering of any integer gives that integer back |
| Decimal.IntToDecimalInjective | RPC/servidor.py:58 | distinct order numbers give distinct renderings, so a message names one order |
| Decimal.IntToDecimalOne | RPC/servidor.py:58 | order number 1 renders as "1" |
| Pedidos.MensagemRecebido | RPC/servidor.py:58 | the submission reply opens with "Pedido #" and closes with " recebido com sucesso!", with exactly the length of the rendered number between them (the number itself is pinned by MensagemRecebidoNumero) |
| Pedidos.MensagemAtualizado | RPC/servidor.py:122 | the update reply opens with "Status do pedido #" and ends with the new status; its length is that of the rendered number plus " atualizado para " and the status |
| Pedidos.MensagemNaoEncontrado | RPC/servidor.py:127 | the not-found reply opens with "Pedido #" and closes with " não encontrado", with exactly the length of the rendered number between them |
| Pedidos.MensagemRecebidoNumero | RPC/servidor.py:58 | the text between "Pedido #" and " recebido com sucesso!" parses back to the order number |
| Pedidos.MensagemAtualizadoNumero | RPC/servidor.py:122 | the text between "Status do pedido #" and " atualizado para " parses back to the order number |
| Pedidos.MensagemNaoEncontradoNumero | RPC/servidor.py:127 | the text between "Pedido #" and " não encontrado" parses back to the order number |
| Pedidos.MensagemRecebidoInjetiva | RPC/servidor.py:58 | two equal submission replies name the same order number |
| Pedidos.MensagemAtualizadoInjetiva | RPC/servidor.py:122 | two equal update replies for one status name the same order number |
| Pedidos.MensagemNaoEncontradoInjetiva | RPC/servidor.py:127 | two equal not-found replies name the same order number |
| Pedidos.MensagemRecebido1 | RPC/servidor.py:58 | the submission reply for order 1 is "Pedido #1 recebido com sucesso!" |
| Pedidos.MensagemAtualizado1 | RPC/servidor.py:122 | the PRONTO reply for order 1 is "Status do pedido #1 atualizado para PRONTO" |
| Pedidos.MensagemNaoEncontrado1 | RPC/servidor.py:127 | the not-found reply for order 1 is "Pedido #1 não encontrado" |
| Pedidos.InicialInv | RPC/servidor.py:21-25 | the start-up state (empty store and queue, counter 0, free slot) satisfies the invariant |
| Pedidos.Enviar | RPC/servidor.py:39-60 | submit keeps the invariant; the counter rises by one; the reply is success with the new number; the number was not in use; it is stored as PENDENTE with the given customer and items; earlier records are unchanged; the number is appended to the queue; the slot is untouched |
| Pedidos.Receber | RPC/servidor.py:73-92 | claim keeps the invariant and never changes the queue, the counter or the stored numbers; slot free and head PENDENTE: the head becomes EM_PREPARO, takes the slot and is returned; slot occupied: the slotted record is returned and nothing changes; otherwise the sentinel is returned and nothing changes; a non-sentinel result is the stored record of the slotted order |
| Pedidos.Atualizar | RPC/servidor.py:105-129 | update keeps the invariant; the reply carries the requested number; success exactly when the number is known; unknown number: no state changes; known number: only that record's status changes; PRONTO with the number in the queue pops the head; PRONTO with the number in the slot frees it; otherwise queue and slot stay |
| Pedidos.ReceberIdempotente | RPC/servidor.py:84-85 | a claim right after a successful claim returns the same record and changes nothing |
| Pedidos.ProntoNaCabeca | RPC/servidor.py:112-114 | PRONTO on the queue head removes exactly that order from the queue |
| Pedidos.ProntoForaDaCabeca | RPC/servidor.py:112-114 | PRONTO on a queued order that is not the head drops the head, whose record is untouched, and leaves the order itself queued |
| Pedidos.ProntoDescartaPendente | RPC/servidor.py:107-114 | orders 1 and 2 are submitted (lines 39-51), then order 2 is marked PRONTO. The queue is left as [2], order 1 is still PENDENTE, and the next claim returns the sentinel and changes nothing |
| Pedidos.CabecaBloqueada | RPC/servidor.py:75-92 | with the slot free and a queue head that is not PENDENTE, a claim returns the sentinel and changes nothing |
| Pedidos.OutroStatusNaCabecaBloqueia | RPC/servidor.py:107-117 | with the slot free, writing a status other than PENDENTE and PRONTO on the queue head keeps it queued, and the next claim returns the sentinel and changes nothing |
| Pedidos.OutroStatus | RPC/servidor.py:107-117 | a status other than PRONTO leaves the queue and the slot unchanged |
| Pedidos.Passo | RPC/servidor.py:28-129 | every call keeps the invariant and removes no record; the counter rises by one on a submission and is otherwise unchanged |
| Pedidos.Executar | RPC/servidor.py:39-60 | any run of calls keeps the invariant and removes no record. The numbers in the submissions' replies are the consecutive numbers after the starting counter, one per submission |
| Pedidos.NumerosDesdeInicio | RPC/servidor.py:23-25 | from start-up, N submissions among any other calls receive exactly 1..N, and the store holds exactly those numbers |
| Pedidos.Cenario | RPC/servidor.py:28-129 | reference run: submit gets 1; claim gives 1 as EM_PREPARO; a second claim gives the same; PRONTO succeeds with the reply "Status do pedido #1 atualizado para PRONTO"; the submission reply is "Pedido #1 recebido com sucesso!"; the next claim gives the sentinel |
| Pedidos.DoisEmPreparo | RPC/servidor.py:107-116 | orders 1 and 2 are submitted and both marked EM_PREPARO by updates: before the updates every order in preparation is slotted; after them both records are EM_PREPARO, the slot is free, and that property fails |
| Pedidos.PassoPreparoNoSlot | RPC/servidor.py:75-116 | a call that does not write EM_PREPARO through an update keeps every EM_PREPARO order in the slot: a claim marks only the head it slots, PRONTO never creates one |
| Pedidos.PassoSlotEmPreparo | RPC/servidor.py:75-116 | a call whose update, if any, writes PRONTO keeps an occupied slot naming an EM_PREPARO order: a claim slots the order it marks, PRONTO on that order frees the slot |
| Pedidos.ExecutarPreparoNoSlot | RPC/servidor.py:28-129 | over a whole run with no update writing EM_PREPARO, every EM_PREPARO order stays the slotted one, so at most one is in preparation |
| Pedidos.ExecutarSlotEmPreparo | RPC/servidor.py:28-129 | over a whole run whose updates write only PRONTO, an occupied slot keeps naming an EM_PREPARO order |
| Pedidos.UmEmPreparoDesdeInicio | RPC/cozinha.py:35-51 | from start-up, with the kitchen writing only PRONTO (line 46), an order is EM_PREPARO exactly when it is in the slot |
| Pedidos.PedidoService.constructor | RPC/servidor.py:21-25 | the service starts in the start-up state, satisfying the invariant |
| Pedidos.PedidoService.EnviarPedido | RPC/servidor.py:39-60 | the new fields and the reply are those of Enviar: counter plus one, record stored as PENDENTE, number appended, slot untouched, success reply |
| Pedidos.PedidoService.ReceberPedido | RPC/servidor.py:73-92 | the new fields and the result are those of Receber; re-delivery and the sentinel leave every field unchanged; a real order returned is the one in the slot |
| Pedidos.PedidoService.AtualizarStatus | RPC/servidor.py:105-129 | the new fields and the reply are those of Atualizar; an unknown number changes no field; a known one has only its status rewritten in the store |
| Lamport.ReceiveClock | exemploLamport/lamport.py:33 | the clock after a receipt is above both the local clock and the stamp, and is the least such value |
| Lamport.Tick | exemploLamport/lamport.py:20-33 | one event raises the clock: by exactly one for a local event (line 22), above the stamp for a receipt (line 33) |
| Lamport.ClockAfter | exemploLamport/lamport.py:20-33 | every event of a history raises the clock by at least one, and the final clock is above every stamp received |
| Lamport.ClockAfterAppend | exemploLamport/lamport.py:31-34 | the clock after one more event is that event's rule applied to the previous clock |
| Lamport.ClockAfterSplit | exemploLamport/lamport.py:20-34 | running two histories one after the other is running their concatenation |
| Lamport.ClockAfterMonotone | exemploLamport/lamport.py:22 | no prefix of a history ends with a higher clock than the whole history: clocks never decrease |
| Lamport.Process.constructor | exemploLamport/lamport.py:13-18 | a new process has the given id and process count, clock 0 and an empty mailbox |
| Lamport.Process.IncrementClock | exemploLamport/lamport.py:20-23 | the clock rises by exactly one and the new value is returned; the mailbox is unchanged |
| Lamport.Process.InternalEvent | exemploLamport/lamport.py:37-38 | the clock rises by exactly one; the mailbox is unchanged |
| Lamport.Process.ReceiveMessage | exemploLamport/lamport.py:31-34 | the clock becomes max(old, stamp) + 1, strictly above both; exactly the message is appended to the mailbox |
| Lamport.Process.SendMessage | exemploLamport/lamport.py:25-29 | the receiver gets a message with the sender's id and its post-increment clock; the receiver's clock ends strictly above that stamp; a distinct sender ends one tick later with its mailbox unchanged |

## Left out

- `MonitorarStatus` (RPC/servidor.py:131-160): a server-streaming generator driven by the connection state, one-second sleeps and wall-clock timestamps. It is I/O and time, not state logic.
- `_notificar_status` and the `observadores` registry (RPC/servidor.py:24, 52, 162-175): the callback lists are only ever set to the empty list, so notification does nothing. The model has no callbacks.
- `iniciar_servidor` (RPC/servidor.py:177-197): server set-up, worker pool, port and sleep loop.
- Concurrency: the service has no locks, and up to ten workers can interleave its calls. The model treats each call as one atomic step and does not model races.
- The wire format: `pedidos_pb2` (the generated message classes) is not part of this model. Order numbers and the counter are unbounded integers, so any fixed width of the integer fields in the generated messages is not modelled.
- Aliasing of records: `ReceberPedido` in the source returns the stored message object itself. The model returns a copy of the record value, which is what the transport serialises.
- `RPC/pdv.py` and `RPC/cozinha.py`: console menus, client stubs, a monitor thread and polling loops. This is I/O only. The one fact taken from them is that the kitchen sends only `"PRONTO"` (RPC/cozinha.py:46), the hypothesis of `UmEmPreparoDesdeInicio`.
- `simulate_process` and the thread launch (exemploLamport/lamport.py:41-65): random choices, sleeps and threads. Also left out: the `print` calls, and the `threading.Lock` in `Process`. Each of `increment_clock` and `receive_message` holds the lock for its own field updates, and the model's methods for them are atomic in the same way. `send_message` is not: it takes the sender's lock in `increment_clock` (line 26) and then the receiver's in `receive_message` (line 29), and other threads can run between the two. `SendMessage` fuses both into one step, so interleavings between the sender's increment and the receiver's update are not modelled.
- `att/servidor_coap.py`, `att/cliente_coap.py`, `rabbitMQ/publicar.py` and `rabbitMQ/receber.py`: network I/O demos with no state logic.
