/** The I/O ports of the RA4M1 that the board uses, the pins each one hands out when it is split,
    and the mapping of the Arduino header pins D0-D13 and A0-A5 onto them.

    The port tokens live in a global `Option` that `get_pins` takes, so the board pins can be
    obtained once; the global is a field of a `PortRegistry` object here. */
module Ports {
  import opened Wrappers
  import opened Pins

  /** The four ports with pins on the Arduino header. */
  datatype Port = Port0 | Port1 | Port3 | Port4

  /** The port's number, which selects its registers. */
  function PortNumber(p: Port): (n: nat)
    ensures n < 16
  {
    match p
    case Port0 => 0
    case Port1 => 1
    case Port3 => 3
    case Port4 => 4
  }

  /** The pin numbers a port hands out when it is split, in declaration order. */
  function PinNumbers(p: Port): seq<nat>
  {
    match p
    case Port0 => [0, 1, 2, 14]
    case Port1 => [0, 1, 2, 3, 4, 5, 6, 7, 11, 12]
    case Port3 => [1, 2, 3, 4]
    case Port4 => [10, 11]
  }

  /** `PortX::split`: one unconfigured pin per pin number of the port, keyed by pin number. */
  function Split(p: Port): map<nat, Pin>
  {
    map n | n in PinNumbers(p) :: Pin(PinId(PortNumber(p), n), Unknown)
  }

  /** Splitting a port hands out exactly its listed pins, each unconfigured, on that port, with a
      valid pin number, and no two of them the same physical pin. */
  lemma SplitPins(p: Port)
    ensures Split(p).Keys == set n | n in PinNumbers(p)
    ensures forall n | n in Split(p) ::
      Split(p)[n].mode == Unknown && Split(p)[n].id == PinId(PortNumber(p), n) && ValidPinId(Split(p)[n].id)
    ensures forall n1, n2 | n1 in Split(p) && n2 in Split(p) && n1 != n2 :: Split(p)[n1].id != Split(p)[n2].id
  {
  }

  /** Pin `n` of the split of port `p` is that port's unconfigured pin `n`. */
  lemma SplitAt(p: Port, n: nat)
    requires n in PinNumbers(p)
    ensures n in Split(p) && Split(p)[n] == Pin(PinId(PortNumber(p), n), Unknown)
  {
  }

  /** Distinct ports have distinct port numbers, so pins of different ports never coincide. */
  lemma PortNumberInjective(p1: Port, p2: Port)
    ensures PortNumber(p1) == PortNumber(p2) <==> p1 == p2
  {
  }

  /** The four port tokens. */
  datatype Ports = Ports(port0: Port, port1: Port, port3: Port, port4: Port)

  /** The initial contents of the global port tokens. */
  const INITIAL_PORTS: Ports := Ports(Port0, Port1, Port3, Port4)

  /** The header pins of the board. D13 drives the LED. */
  datatype BoardPin =
    | D0 | D1 | D2 | D3 | D4 | D5 | D6 | D7 | D8 | D9 | D10 | D11 | D12 | D13
    | A0 | A1 | A2 | A3 | A4 | A5

  /** The microcontroller pin wired to each header pin, as (port, pin). */
  function BoardPinId(b: BoardPin): PinId
  {
    match b
    case D0 => PinId(3, 1)
    case D1 => PinId(3, 2)
    case D2 => PinId(1, 4)
    case D3 => PinId(1, 5)
    case D4 => PinId(1, 6)
    case D5 => PinId(1, 7)
    case D6 => PinId(1, 11)
    case D7 => PinId(1, 12)
    case D8 => PinId(3, 4)
    case D9 => PinId(3, 3)
    case D10 => PinId(1, 3)
    case D11 => PinId(4, 11)
    case D12 => PinId(4, 10)
    case D13 => PinId(1, 2)
    case A0 => PinId(0, 14)
    case A1 => PinId(0, 0)
    case A2 => PinId(0, 1)
    case A3 => PinId(0, 2)
    case A4 => PinId(1, 1)
    case A5 => PinId(1, 0)
  }

  /** The header pin wired to microcontroller pin `id`, if any. */
  function HeaderPinAt(id: PinId): Option<BoardPin>
  {
    match id
    case PinId(3, 1) => Some(D0)
    case PinId(3, 2) => Some(D1)
    case PinId(1, 4) => Some(D2)
    case PinId(1, 5) => Some(D3)
    case PinId(1, 6) => Some(D4)
    case PinId(1, 7) => Some(D5)
    case PinId(1, 11) => Some(D6)
    case PinId(1, 12) => Some(D7)
    case PinId(3, 4) => Some(D8)
    case PinId(3, 3) => Some(D9)
    case PinId(1, 3) => Some(D10)
    case PinId(4, 11) => Some(D11)
    case PinId(4, 10) => Some(D12)
    case PinId(1, 2) => Some(D13)
    case PinId(0, 14) => Some(A0)
    case PinId(0, 0) => Some(A1)
    case PinId(0, 1) => Some(A2)
    case PinId(0, 2) => Some(A3)
    case PinId(1, 1) => Some(A4)
    case PinId(1, 0) => Some(A5)
    case _ => None
  }

  /** `HeaderPinAt` undoes the wiring, and every wired pin is a valid pin. */
  lemma HeaderPinAtWiring(b: BoardPin)
    ensures HeaderPinAt(BoardPinId(b)) == Some(b)
    ensures ValidPinId(BoardPinId(b))
  {
  }

  /** Every pin a split port hands out is wired to a header pin: `get_pins` leaves none of them
      unused. */
  lemma SplitPinsAllWired(p: Port, n: nat)
    requires n in PinNumbers(p)
    ensures HeaderPinAt(PinId(PortNumber(p), n)).Some?
    ensures BoardPinId(HeaderPinAt(PinId(PortNumber(p), n)).value) == PinId(PortNumber(p), n)
  {
    match p
    case Port0 =>
      assert n == 0 || n == 1 || n == 2 || n == 14;
      PinWired(0, n);
    case Port1 =>
      assert n <= 7 || n == 11 || n == 12;
      PinWired(1, n);
    case Port3 =>
      assert 1 <= n <= 4;
      PinWired(3, n);
    case Port4 =>
      assert n == 10 || n == 11;
      PinWired(4, n);
  }

  /** The header wiring on the split pins of each port, one port number at a time. */
  lemma PinWired(port: nat, n: nat)
    requires port == 0 ==> n == 0 || n == 1 || n == 2 || n == 14
    requires port == 1 ==> n <= 7 || n == 11 || n == 12
    requires port == 3 ==> 1 <= n <= 4
    requires port == 4 ==> n == 10 || n == 11
    requires port == 0 || port == 1 || port == 3 || port == 4
    ensures HeaderPinAt(PinId(port, n)).Some?
    ensures BoardPinId(HeaderPinAt(PinId(port, n)).value) == PinId(port, n)
  {
  }

  /** No two header pins share a microcontroller pin, and each is a valid pin. */
  lemma BoardPinIdInjective(b1: BoardPin, b2: BoardPin)
    ensures ValidPinId(BoardPinId(b1))
    ensures BoardPinId(b1) == BoardPinId(b2) <==> b1 == b2
  {
    HeaderPinAtWiring(b1);
    HeaderPinAtWiring(b2);
  }

  /** `ArduinoPins`: one pin per header pin. */
  datatype ArduinoPins = ArduinoPins(
    d0: Pin, d1: Pin, d2: Pin, d3: Pin, d4: Pin, d5: Pin, d6: Pin, d7: Pin, d8: Pin, d9: Pin,
    d10: Pin, d11: Pin, d12: Pin, d13: Pin,
    a0: Pin, a1: Pin, a2: Pin, a3: Pin, a4: Pin, a5: Pin)
  {
    /** The field of header pin `b`. */
    function Get(b: BoardPin): Pin
    {
      match b
      case D0 => d0
      case D1 => d1
      case D2 => d2
      case D3 => d3
      case D4 => d4
      case D5 => d5
      case D6 => d6
      case D7 => d7
      case D8 => d8
      case D9 => d9
      case D10 => d10
      case D11 => d11
      case D12 => d12
      case D13 => d13
      case A0 => a0
      case A1 => a1
      case A2 => a2
      case A3 => a3
      case A4 => a4
      case A5 => a5
    }
  }

  /** What `get_pins` assembles from the four split ports: each header pin is taken from the
      split of its port. */
  function BoardPins(ports: Ports): ArduinoPins
    requires ports == INITIAL_PORTS
  {
    var port0, port1, port3, port4 := Split(ports.port0), Split(ports.port1), Split(ports.port3), Split(ports.port4);
    ArduinoPins(
      port3[1], port3[2], port1[4], port1[5], port1[6], port1[7], port1[11], port1[12],
      port3[4], port3[3], port1[3], port4[11], port4[10], port1[2],
      port0[14], port0[0], port0[1], port0[2], port1[1], port1[0])
  }

  /** Every header pin that `get_pins` hands out is the unconfigured microcontroller pin the
      board wires to it. */
  lemma BoardPinsWiring(b: BoardPin)
    ensures BoardPins(INITIAL_PORTS).Get(b) == Pin(BoardPinId(b), Unknown)
  {
    var id := BoardPinId(b);
    match id.port
    case 0 => SplitAt(Port0, id.pin);
    case 1 => SplitAt(Port1, id.pin);
    case 3 => SplitAt(Port3, id.pin);
    case 4 => SplitAt(Port4, id.pin);
  }

  /** The global `PORTS`: the port tokens until `get_pins` takes them. */
  class PortRegistry {
    var ports: Option<Ports>

    /** The state at reset: every port token present. */
    constructor ()
      ensures ports == Some(INITIAL_PORTS)
    {
      ports := Some(INITIAL_PORTS);
    }

    /** The registry holds the port tokens the program started with, or none at all. */
    predicate Valid()
      reads this
    {
      ports == None || ports == Some(INITIAL_PORTS)
    }

    /** `get_pins`: take the port tokens, split the ports and hand out the header pins; `None`
        when they were taken before. Either way no port tokens are left. */
    method GetPins() returns (r: Option<ArduinoPins>)
      requires Valid()
      modifies this
      ensures Valid() && ports == None
      ensures r.Some? <==> old(ports).Some?
      ensures r.Some? ==> forall b :: r.value.Get(b) == Pin(BoardPinId(b), Unknown)
    {
      if ports == None {
        return None;
      }
      var taken := ports.value;
      ports := None;
      r := Some(BoardPins(taken));
      forall b ensures r.value.Get(b) == Pin(BoardPinId(b), Unknown) {
        BoardPinsWiring(b);
      }
    }
  }
}
