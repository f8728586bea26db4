/**
 * The outside world the intake server talks to: one spreadsheet (its tabs, in
 * order, each a grid of cells), the Gmail outbox and the Gemini model. Every
 * request the server makes is one `Call`; the world answers it or fails it, and
 * records it in the call log either way. Which calls fail is fixed in advance by
 * `Env.faults` (log position to error message), so a run of the server is a
 * function of the world it starts in.
 */
module Sheets {
  import opened Wrappers
  import opened Text
  import opened Js

  /** A value written with `valueInputOption: 'RAW'`: a string, or a number (from `safeNum`). */
  datatype Cell = Text(text: string) | Number(value: int)

  /** How `values.get` hands a cell back: numbers as their decimal spelling. */
  function Display(c: Cell): string
  {
    match c
    case Text(s) => s
    case Number(n) => IntToDecimal(n)
  }

  function TextCells(xs: seq<string>): (r: seq<Cell>)
    ensures |r| == |xs|
    ensures forall i :: 0 <= i < |xs| ==> r[i] == Text(xs[i])
  {
    seq(|xs|, i requires 0 <= i < |xs| => Text(xs[i]))
  }

  type Grid = seq<seq<Cell>>

  /** The spreadsheet: tab titles in display order, and each tab's rows. */
  datatype Book = Book(titles: seq<string>, tabs: map<string, Grid>)

  predicate Distinct(xs: seq<string>)
  {
    forall i, j :: 0 <= i < j < |xs| ==> xs[i] != xs[j]
  }

  /** The titles listed are exactly the tabs held, each once. */
  predicate ValidBook(b: Book)
  {
    && (forall t <- b.titles :: t in b.tabs)
    && (forall t <- b.tabs :: t in b.titles)
    && Distinct(b.titles)
  }

  const TitleTaken := "A sheet with this name already exists"
  const NoSuchRange := "Unable to parse range"

  /** A `batchUpdate` of `addSheet` requests: all or nothing. Each new tab is
      empty; with `index: 0` it goes first, otherwise last. */
  function AddTabs(b: Book, ts: seq<string>, atFront: bool): (r: Result<Book>)
    ensures r.Ok? <==> (forall t <- ts :: t !in b.tabs) && Distinct(ts)
    ensures r.Ok? ==> r.value.tabs.Keys == b.tabs.Keys + set t <- ts
    ensures r.Ok? ==> forall t <- b.tabs :: r.value.tabs[t] == b.tabs[t]
    ensures r.Ok? ==> forall t <- ts :: r.value.tabs[t] == []
    ensures r.Ok? && ValidBook(b) ==> ValidBook(r.value)
  {
    if (exists t <- ts :: t in b.tabs) || !Distinct(ts) then Err(TitleTaken)
    else
      var titles := if atFront then ts + b.titles else b.titles + ts;
      var nb := Book(titles, b.tabs + map t | t in ts :: []);
      assert ValidBook(b) ==> Distinct(titles) by {
        if ValidBook(b) {
          forall i, j | 0 <= i < j < |titles| ensures titles[i] != titles[j] {
            if atFront {
              if j >= |ts| && i < |ts| { assert titles[i] in ts && titles[j] in b.titles; }
              else if i >= |ts| { assert titles[i] == b.titles[i - |ts|] && titles[j] == b.titles[j - |ts|]; }
            } else {
              if i < |b.titles| && j >= |b.titles| { assert titles[i] in b.titles && titles[j] in ts; }
              else if i >= |b.titles| { assert titles[i] == ts[i - |b.titles|] && titles[j] == ts[j - |b.titles|]; }
            }
          }
        }
      }
      Ok(nb)
  }

  /** Column `j` read top to bottom as `values.get` shows it, a short row
      giving "". */
  function Column(g: Grid, j: nat): seq<string>
  {
    seq(|g|, i requires 0 <= i < |g| => if j < |g[i]| then Display(g[i][j]) else "")
  }

  /** The cells `values.get` returns for `A1:<width>1`, as strings. */
  function Row1(g: Grid, width: nat): (r: seq<string>)
    ensures |r| <= width
    ensures g != [] ==> |r| == if |g[0]| < width then |g[0]| else width
    ensures g != [] ==> forall i :: 0 <= i < |r| ==> r[i] == Display(g[0][i])
  {
    if g == [] then []
    else
      var row := if |g[0]| < width then g[0] else g[0][..width];
      seq(|row|, i requires 0 <= i < |row| => Display(row[i]))
  }

  /** `values.update` of `block` at A1: each written row covers the start of
      the row it lands on; cells to its right and rows below stay. */
  function Overlay(g: Grid, block: Grid): (r: Grid)
    ensures |r| == if |g| < |block| then |block| else |g|
    ensures forall i :: 0 <= i < |block| ==> |block[i]| <= |r[i]| && r[i][..|block[i]|] == block[i]
    ensures forall i :: |block| <= i < |g| ==> r[i] == g[i]
  {
    var n := if |g| < |block| then |block| else |g|;
    seq(n, i requires 0 <= i < n =>
      if i < |block| then
        block[i] + (if i < |g| && |block[i]| < |g[i]| then g[i][|block[i]|..] else [])
      else g[i])
  }

  /** Writing a block over an empty tab leaves exactly the block. */
  lemma OverlayOnEmpty(block: Grid)
    ensures Overlay([], block) == block
  {
    var r := Overlay([], block);
    forall i | 0 <= i < |block| ensures r[i] == block[i] {
      assert |block[i]| <= |r[i]| && r[i][..|block[i]|] == block[i];
    }
  }

  /** One request to the outside world. */
  datatype Call =
    | GetMetadata                                  // spreadsheets.get
    | AddSheets(titles: seq<string>, atFront: bool) // spreadsheets.batchUpdate
    | ReadRow1(tab: string, width: nat)            // values.get of the header range
    | Update(tab: string, block: Grid)             // values.update at A1
    | Append(tab: string, row: seq<Cell>)          // values.append after the last row
    | Generate(input: JsValue)                     // models.generateContent
    | Send(raw: string)                            // gmail users.messages.send

  datatype Response =
    | Titles(titles: seq<string>)
    | Values(row: seq<string>)
    | Reply(text: string)
    | Ack

  /** A call in the log, and whether it succeeded. */
  datatype Event = Event(call: Call, ok: bool)

  datatype World = World(book: Book, outbox: seq<string>, log: seq<Event>)

  /** What the run cannot decide: which log positions fail, and with what
      message, and the text the model replies with. */
  datatype Env = Env(faults: map<nat, string>, reply: string)

  /** A call the world carries out; `Err` when the spreadsheet refuses it. */
  function Apply(b: Book, outbox: seq<string>, reply: string, c: Call): Result<(Book, seq<string>, Response)>
  {
    match c
    case GetMetadata => Ok((b, outbox, Titles(b.titles)))
    case AddSheets(ts, front) =>
      (match AddTabs(b, ts, front)
       case Ok(nb) => Ok((nb, outbox, Ack))
       case Err(m) => Err(m))
    case ReadRow1(tab, width) =>
      if tab in b.tabs then Ok((b, outbox, Values(Row1(b.tabs[tab], width)))) else Err(NoSuchRange)
    case Update(tab, block) =>
      if tab in b.tabs then Ok((b.(tabs := b.tabs[tab := Overlay(b.tabs[tab], block)]), outbox, Ack))
      else Err(NoSuchRange)
    case Append(tab, row) =>
      if tab in b.tabs then Ok((b.(tabs := b.tabs[tab := b.tabs[tab] + [row]]), outbox, Ack))
      else Err(NoSuchRange)
    case Generate(_) => Ok((b, outbox, Reply(reply)))
    case Send(raw) => Ok((b, outbox + [raw], Ack))
  }

  /** One call: logged whatever happens; a failed call changes nothing else. */
  function Exec(w: World, env: Env, c: Call): (res: (World, Result<Response>))
    ensures res.0.log == w.log + [Event(c, res.1.Ok?)]
    ensures res.1.Err? ==> res.0.book == w.book && res.0.outbox == w.outbox
    ensures |w.log| in env.faults ==> res.1 == Err(env.faults[|w.log|])
    ensures c.Send? && res.1.Ok? ==> res.0.outbox == w.outbox + [c.raw]
    ensures !c.Send? ==> res.0.outbox == w.outbox
  {
    if |w.log| in env.faults then
      (w.(log := w.log + [Event(c, false)]), Err(env.faults[|w.log|]))
    else
      match Apply(w.book, w.outbox, env.reply, c)
      case Err(m) => (w.(log := w.log + [Event(c, false)]), Err(m))
      case Ok((b, o, r)) => (World(b, o, w.log + [Event(c, true)]), Ok(r))
  }

  /** No call from log position `from` on, for `n` calls, fails by fault. */
  predicate NoFaults(env: Env, from: nat, n: nat)
  {
    forall p :: from <= p < from + n ==> p !in env.faults
  }

  /** From `w` to `w2` the log only grew, and every new call but the last
      succeeded; when `ok`, the last one did too. So a failed call is
      always the last call. */
  predicate Progressed(w: World, w2: World, ok: bool)
  {
    && |w.log| <= |w2.log| && w2.log[..|w.log|] == w.log
    && (forall i :: |w.log| <= i < |w2.log| - 1 ==> w2.log[i].ok)
    && (ok ==> forall i :: |w.log| <= i < |w2.log| ==> w2.log[i].ok)
  }

  lemma ExecProgressed(w: World, env: Env, c: Call)
    ensures var (w2, r) := Exec(w, env, c); Progressed(w, w2, r.Ok?)
  {
  }

  /** A run that succeeded up to `w2` and then went on to `w3`. */
  lemma ProgressedChain(w1: World, w2: World, w3: World, ok: bool)
    requires Progressed(w1, w2, true) && Progressed(w2, w3, ok)
    ensures Progressed(w1, w3, ok)
  {
    assert w3.log[..|w1.log|] == w3.log[..|w2.log|][..|w1.log|];
    forall i | |w1.log| <= i < |w3.log| - 1 ensures w3.log[i].ok {
      if i < |w2.log| {
        assert w3.log[i] == w2.log[i];
      }
    }
    if ok {
      forall i | |w1.log| <= i < |w3.log| ensures w3.log[i].ok {
        if i < |w2.log| {
          assert w3.log[i] == w2.log[i];
        }
      }
    }
  }

  /** The spreadsheet, mailbox and model, as the server's requests change them. */
  class Cloud {
    var book: Book
    var outbox: seq<string>
    var log: seq<Event>
    const env: Env

    function State(): World
      reads this
    {
      World(book, outbox, log)
    }

    constructor (b: Book, e: Env)
      ensures State() == World(b, [], []) && env == e
    {
      book, outbox, log := b, [], [];
      env := e;
    }

    /** Sends one request and waits for its answer. */
    method Perform(c: Call) returns (r: Result<Response>)
      modifies this
      ensures (State(), r) == Exec(old(State()), env, c)
    {
      var res := Exec(State(), env, c);
      book, outbox, log := res.0.book, res.0.outbox, res.0.log;
      r := res.1;
    }
  }
}
