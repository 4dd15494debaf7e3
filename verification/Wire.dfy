/** Byte order of packets (lab5/endian.c). An unsigned int is four bytes in memory; what number it
    stands for depends on the host. htonl and ntohl are the same byte permutation. */
module Wire {
  import opened Protocol

  /** The four bytes of an unsigned int, by increasing address. */
  datatype Word = Word(b0: Byte, b1: Byte, b2: Byte, b3: Byte)

  datatype Host = LittleEndian | BigEndian

  const WORD_LIMIT := 0x1_0000_0000

  function Load(h: Host, w: Word): (n: nat)
    ensures n < WORD_LIMIT
  {
    match h
    case LittleEndian => w.b0 + 0x100 * w.b1 + 0x1_0000 * w.b2 + 0x100_0000 * w.b3
    case BigEndian => w.b3 + 0x100 * w.b2 + 0x1_0000 * w.b1 + 0x100_0000 * w.b0
  }

  function Store(h: Host, n: nat): (w: Word)
    requires n < WORD_LIMIT
    ensures Load(h, w) == n
  {
    var lo, hi := n % 0x1_0000, n / 0x1_0000;
    match h
    case LittleEndian => Word(lo % 0x100, lo / 0x100, hi % 0x100, hi / 0x100)
    case BigEndian => Word(hi / 0x100, hi % 0x100, lo / 0x100, lo % 0x100)
  }

  /** htonl and ntohl. */
  function Swap(h: Host, w: Word): Word {
    match h
    case LittleEndian => Word(w.b3, w.b2, w.b1, w.b0)
    case BigEndian => w
  }

  /** A converted word carries its number in network order, from whatever host it comes. */
  lemma SwapMeetsNetworkOrder(h: Host, w: Word)
    ensures Load(BigEndian, Swap(h, w)) == Load(h, w)
    ensures Load(h, Swap(h, w)) == Load(BigEndian, w)
    ensures Swap(h, Swap(h, w)) == w
  {
  }

  /** The bytes of n in network order, the most significant one first. */
  predicate NetworkOrder(w: Word, n: nat) {
    && w.b0 == n / 0x100 / 0x100 / 0x100 && w.b1 == n / 0x100 / 0x100 % 0x100
    && w.b2 == n / 0x100 % 0x100 && w.b3 == n % 0x100
  }

  lemma NetworkOrderIsBigEndian(w: Word, n: nat)
    ensures NetworkOrder(w, n) <==> Load(BigEndian, w) == n
  {
  }

  /** On every host, the word to be sent for n has the bytes of n in network order, and a word with these
      bytes is read as n once it is converted. */
  lemma WordsTravel(h: Host, w: Word, n: nat)
    ensures NetworkOrder(Swap(h, w), n) <==> Load(h, w) == n
    ensures NetworkOrder(w, n) <==> Load(h, Swap(h, w)) == n
  {
    SwapMeetsNetworkOrder(h, w);
    NetworkOrderIsBigEndian(w, n);
    NetworkOrderIsBigEndian(Swap(h, w), n);
  }

  // ---------- Route updates ----------

  datatype RawRoute = RawRoute(dest: Word, nextHop: Word, cost: Word)

  /** The bytes of a struct pkt_RT_UPDATE. */
  datatype Image = Image(sender: Word, dest: Word, noRoutes: Word, route: seq<RawRoute>) {
    /** The number of rows, as the given host reads it, stays inside the array. */
    predicate Fits(h: Host) {
      Load(h, noRoutes) <= |route|
    }
  }

  function ReadRoute(h: Host, r: RawRoute): Route {
    Route(Load(h, r.dest), Load(h, r.nextHop), Load(h, r.cost))
  }

  predicate FitsWords(r: Route) {
    r.dest < WORD_LIMIT && r.nextHop < WORD_LIMIT && r.cost < WORD_LIMIT
  }

  function WriteRoute(h: Host, r: Route): (raw: RawRoute)
    requires FitsWords(r)
    ensures ReadRoute(h, raw) == r
  {
    RawRoute(Store(h, r.dest), Store(h, r.nextHop), Store(h, r.cost))
  }

  /** What the struct says to code running on host h. */
  function View(h: Host, img: Image): (u: RtUpdate)
    requires img.Fits(h)
    ensures |u.routes| == Load(h, img.noRoutes)
    ensures forall i :: 0 <= i < |u.routes| ==> u.routes[i] == ReadRoute(h, img.route[i])
  {
    RtUpdate(Load(h, img.sender), Load(h, img.dest),
             seq(Load(h, img.noRoutes), i requires 0 <= i < |img.route| => ReadRoute(h, img.route[i])))
  }

  function SwapRoute(h: Host, r: RawRoute): RawRoute {
    RawRoute(Swap(h, r.dest), Swap(h, r.nextHop), Swap(h, r.cost))
  }

  /** The first n rows converted, the others untouched. */
  function SwapRows(h: Host, rows: seq<RawRoute>, n: nat): (out: seq<RawRoute>)
    ensures |out| == |rows|
    ensures forall i :: 0 <= i < |rows| ==> out[i] == if i < n then SwapRoute(h, rows[i]) else rows[i]
  {
    seq(|rows|, i requires 0 <= i < |rows| => if i < n then SwapRoute(h, rows[i]) else rows[i])
  }

  function ToNetwork(h: Host, img: Image): Image {
    Image(Swap(h, img.sender), Swap(h, img.dest), Swap(h, img.noRoutes),
          SwapRows(h, img.route, Load(h, img.noRoutes)))
  }

  function ToHost(h: Host, img: Image): Image {
    var n := Swap(h, img.noRoutes);
    Image(Swap(h, img.sender), Swap(h, img.dest), n, SwapRows(h, img.route, Load(h, n)))
  }

  /** The bytes of row r in network order, each number in its own field. */
  predicate RowOnWire(raw: RawRoute, r: Route) {
    NetworkOrder(raw.dest, r.dest) && NetworkOrder(raw.nextHop, r.nextHop) && NetworkOrder(raw.cost, r.cost)
  }

  /** The struct says u to the network: each number of u in network order, in the field of its own. */
  ghost predicate OnWire(img: Image, u: RtUpdate) {
    && NetworkOrder(img.sender, u.sender) && NetworkOrder(img.dest, u.dest)
    && NetworkOrder(img.noRoutes, |u.routes|) && |u.routes| <= |img.route|
    && forall i :: 0 <= i < |u.routes| ==> RowOnWire(img.route[i], u.routes[i])
  }

  lemma RowsTravel(h: Host, raw: RawRoute, r: Route)
    ensures RowOnWire(SwapRoute(h, raw), r) <==> ReadRoute(h, raw) == r
    ensures RowOnWire(raw, r) <==> ReadRoute(h, SwapRoute(h, raw)) == r
  {
    WordsTravel(h, raw.dest, r.dest);
    WordsTravel(h, raw.nextHop, r.nextHop);
    WordsTravel(h, raw.cost, r.cost);
  }

  /** What a host puts on the wire is exactly what it reads in its own struct. */
  lemma SentAsRead(h: Host, img: Image, u: RtUpdate)
    requires img.Fits(h)
    ensures OnWire(ToNetwork(h, img), u) <==> View(h, img) == u
  {
    WordsTravel(h, img.sender, u.sender);
    WordsTravel(h, img.dest, u.dest);
    WordsTravel(h, img.noRoutes, |u.routes|);
    forall i | 0 <= i < |u.routes| && i < |img.route|
      ensures RowOnWire(SwapRoute(h, img.route[i]), u.routes[i]) <==> ReadRoute(h, img.route[i]) == u.routes[i]
    {
      RowsTravel(h, img.route[i], u.routes[i]);
    }
  }

  /** What a host reads in its struct after the conversion is exactly what the wire says. */
  lemma ReadAsReceived(h: Host, img: Image, u: RtUpdate)
    ensures OnWire(img, u) <==> ToHost(h, img).Fits(h) && View(h, ToHost(h, img)) == u
  {
    WordsTravel(h, img.sender, u.sender);
    WordsTravel(h, img.dest, u.dest);
    WordsTravel(h, img.noRoutes, |u.routes|);
    forall i | 0 <= i < |u.routes| && i < |img.route|
      ensures RowOnWire(img.route[i], u.routes[i]) <==> ReadRoute(h, SwapRoute(h, img.route[i])) == u.routes[i]
    {
      RowsTravel(h, img.route[i], u.routes[i]);
    }
  }

  /** Hosts of the network's own byte order read on the wire what the sender means, and send what they read. */
  lemma NetworkHostsReadDirectly(h: Host, img: Image)
    ensures img.Fits(h) ==>
              ToNetwork(h, img).Fits(BigEndian) && View(BigEndian, ToNetwork(h, img)) == View(h, img)
    ensures img.Fits(BigEndian) ==>
              ToHost(h, img).Fits(h) && View(h, ToHost(h, img)) == View(BigEndian, img)
  {
    if img.Fits(h) {
      SentAsRead(h, img, View(h, img));
      ReadAsReceived(BigEndian, ToNetwork(h, img), View(h, img));
    }
    if img.Fits(BigEndian) {
      SentAsRead(BigEndian, img, View(BigEndian, img));
      ReadAsReceived(h, img, View(BigEndian, img));
    }
  }

  /** Whatever the byte orders of the two hosts, the receiver reads the sender's packet, and the rows
      past the announced ones keep their bytes. On equal hosts the whole struct is restored. */
  lemma RoundTrip(sender: Host, receiver: Host, img: Image)
    requires img.Fits(sender)
    ensures var got := ToHost(receiver, ToNetwork(sender, img));
            && got.Fits(receiver) && View(receiver, got) == View(sender, img)
            && |got.route| == |img.route|
            && (forall i :: Load(sender, img.noRoutes) <= i < |img.route| ==> got.route[i] == img.route[i])
            && (sender == receiver ==> got == img)
  {
  }

  /** The struct pkt_RT_UPDATE in memory. */
  class UpdatePacket {
    var sender: Word
    var dest: Word
    var noRoutes: Word
    const route: array<RawRoute>

    ghost predicate Valid() {
      route.Length == MAX_ROUTERS
    }

    function Bytes(): Image
      reads this, route
    {
      Image(sender, dest, noRoutes, route[..])
    }

    constructor ()
      ensures Valid() && fresh(route)
    {
      var zero := Word(0, 0, 0, 0);
      sender, dest, noRoutes := zero, zero, zero;
      route := new RawRoute[MAX_ROUTERS](_ => RawRoute(zero, zero, zero));
    }

    /** The announced number is converted last: the loop still needs it. */
    method HtoN(h: Host)
      requires Valid() && Bytes().Fits(h)
      modifies this, route
      ensures Bytes() == ToNetwork(h, old(Bytes()))
      ensures OnWire(Bytes(), View(h, old(Bytes())))
    {
      SentAsRead(h, Bytes(), View(h, Bytes()));
      sender := Swap(h, sender);
      dest := Swap(h, dest);
      ghost var was := route[..];
      var i := 0;
      while i < Load(h, noRoutes)
        invariant i <= Load(h, noRoutes) == Load(h, old(noRoutes))
        invariant sender == Swap(h, old(sender)) && dest == Swap(h, old(dest)) && noRoutes == old(noRoutes)
        invariant route[..] == SwapRows(h, was, i)
      {
        var r := route[i];
        route[i] := RawRoute(Swap(h, r.dest), Swap(h, r.nextHop), Swap(h, r.cost));
        i := i + 1;
      }
      noRoutes := Swap(h, noRoutes);
    }

    /** The announced number is converted first: the loop already needs it. */
    method NtoH(h: Host)
      requires Valid() && Load(h, Swap(h, noRoutes)) <= MAX_ROUTERS
      modifies this, route
      ensures Bytes() == ToHost(h, old(Bytes()))
      ensures Bytes().Fits(h) && OnWire(old(Bytes()), View(h, Bytes()))
    {
      ReadAsReceived(h, Bytes(), View(h, ToHost(h, Bytes())));
      sender := Swap(h, sender);
      dest := Swap(h, dest);
      noRoutes := Swap(h, noRoutes);
      ghost var was := route[..];
      var i := 0;
      while i < Load(h, noRoutes)
        invariant i <= Load(h, noRoutes)
        invariant sender == Swap(h, old(sender)) && dest == Swap(h, old(dest)) && noRoutes == Swap(h, old(noRoutes))
        invariant route[..] == SwapRows(h, was, i)
      {
        var r := route[i];
        route[i] := RawRoute(Swap(h, r.dest), Swap(h, r.nextHop), Swap(h, r.cost));
        i := i + 1;
      }
    }
  }

  // ---------- The answer of the network initializer ----------

  datatype RawNbr = RawNbr(nbr: Word, cost: Word)

  datatype InitImage = InitImage(noNbr: Word, nbrCost: seq<RawNbr>)

  function ReadNbr(h: Host, r: RawNbr): NbrCost {
    NbrCost(Load(h, r.nbr), Load(h, r.cost))
  }

  function InitView(h: Host, img: InitImage): (resp: InitResponse)
    ensures resp.noNbr == Load(h, img.noNbr) && |resp.nbrCost| == |img.nbrCost|
    ensures forall i :: 0 <= i < |img.nbrCost| ==> resp.nbrCost[i] == ReadNbr(h, img.nbrCost[i])
  {
    InitResponse(Load(h, img.noNbr),
                 seq(|img.nbrCost|, i requires 0 <= i < |img.nbrCost| => ReadNbr(h, img.nbrCost[i])))
  }

  /** The first n slots converted, the others untouched. */
  function SwapNbrs(h: Host, slots: seq<RawNbr>, n: nat): (out: seq<RawNbr>)
    ensures |out| == |slots|
    ensures forall i :: 0 <= i < |slots| ==>
      out[i] == if i < n then RawNbr(Swap(h, slots[i].nbr), Swap(h, slots[i].cost)) else slots[i]
  {
    seq(|slots|, i requires 0 <= i < |slots| =>
      if i < n then RawNbr(Swap(h, slots[i].nbr), Swap(h, slots[i].cost)) else slots[i])
  }

  function InitToHost(h: Host, img: InitImage): InitImage {
    var n := Swap(h, img.noNbr);
    InitImage(n, SwapNbrs(h, img.nbrCost, Load(h, n)))
  }

  /** Neighbours are read as the initializer sent them. The spare slot is not converted: one that was
      sent as (me, 0) is read as (me, 0) exactly when me reads the same in both byte orders. */
  lemma InitConversion(h: Host, img: InitImage, me: nat)
    requires |img.nbrCost| == MAX_ROUTERS && Load(BigEndian, img.noNbr) + 2 <= MAX_ROUTERS
    ensures var resp := InitView(h, InitToHost(h, img));
            && NetworkOrder(img.noNbr, resp.noNbr) && resp.FitsArrays()
            && (forall i :: 0 <= i < resp.noNbr ==>
                  && NetworkOrder(img.nbrCost[i].nbr, resp.nbrCost[i].nbr)
                  && NetworkOrder(img.nbrCost[i].cost, resp.nbrCost[i].cost))
            && var slot := img.nbrCost[resp.noNbr];
               (NetworkOrder(slot.nbr, me) && NetworkOrder(slot.cost, 0) ==>
                  (resp.SpareSlot() == NbrCost(me, 0) <==> Load(h, slot.nbr) == me))
  {
    var resp := InitView(h, InitToHost(h, img));
    WordsTravel(h, img.noNbr, resp.noNbr);
    forall i | 0 <= i < resp.noNbr
      ensures NetworkOrder(img.nbrCost[i].nbr, resp.nbrCost[i].nbr)
      ensures NetworkOrder(img.nbrCost[i].cost, resp.nbrCost[i].cost)
    {
      WordsTravel(h, img.nbrCost[i].nbr, resp.nbrCost[i].nbr);
      WordsTravel(h, img.nbrCost[i].cost, resp.nbrCost[i].cost);
    }
  }

  /** The struct pkt_INIT_RESPONSE in memory. */
  class InitPacket {
    var noNbr: Word
    const nbrCost: array<RawNbr>

    ghost predicate Valid() {
      nbrCost.Length == MAX_ROUTERS
    }

    function Bytes(): InitImage
      reads this, nbrCost
    {
      InitImage(noNbr, nbrCost[..])
    }

    constructor (img: InitImage)
      requires |img.nbrCost| == MAX_ROUTERS
      ensures Valid() && fresh(nbrCost) && Bytes() == img
    {
      noNbr := img.noNbr;
      nbrCost := new RawNbr[MAX_ROUTERS](i requires 0 <= i < MAX_ROUTERS => img.nbrCost[i]);
    }

    method NtoH(h: Host)
      requires Valid() && Load(h, Swap(h, noNbr)) <= MAX_ROUTERS
      modifies this, nbrCost
      ensures Bytes() == InitToHost(h, old(Bytes()))
    {
      noNbr := Swap(h, noNbr);
      ghost var was := nbrCost[..];
      var i := 0;
      while i < Load(h, noNbr)
        invariant i <= Load(h, noNbr) && noNbr == Swap(h, old(noNbr))
        invariant nbrCost[..] == SwapNbrs(h, was, i)
      {
        var n := nbrCost[i];
        nbrCost[i] := RawNbr(Swap(h, n.nbr), Swap(h, n.cost));
        i := i + 1;
      }
    }
  }
}
