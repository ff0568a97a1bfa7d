/**
 Non-volatile stored options: a checksummed option block in memory, persisted in one EFI
 variable that is read back at the next start.
 */
module StoredOptions {
  import opened Bytes

  // ---------------------------------------------------------------- the block

  function ByteSum(s: bytes): nat { if s == [] then 0 else s[0] + ByteSum(s[1..]) }

  function Checksum(s: bytes): byte { ByteSum(s) % 256 }

  /** An option list as the DHCP option codec leaves it: empty, or starting with a real tag. */
  predicate OptionsOk(opts: bytes) { opts == [] || opts[0] != 0 }

  /** What is persisted for an option list: nothing, or a checksum byte and the options. */
  function Image(opts: bytes): bytes {
    if opts == [] then [] else [(256 - Checksum(opts)) % 256] + opts
  }

  /** What a stored block is read as: anything inconsistent counts as empty. */
  function Loaded(stored: bytes): bytes {
    if |stored| < 2 || Checksum(stored) != 0 || stored[1] == 0 then [] else stored[1..]
  }

  lemma {:induction false} SumSplit(a: bytes, b: bytes)
    ensures ByteSum(a + b) == ByteSum(a) + ByteSum(b)
  {
    if a == [] {
      assert a + b == b;
    } else {
      SumSplit(a[1..], b);
      assert (a + b)[1..] == a[1..] + b;
    }
  }

  lemma SumHead(x: byte, s: bytes)
    ensures ByteSum([x] + s) == x + ByteSum(s)
  {
    assert ([x] + s)[1..] == s;
  }

  /** Round trip: what was saved is what is loaded. */
  lemma LoadedImage(opts: bytes)
    requires OptionsOk(opts)
    ensures Loaded(Image(opts)) == opts
  {
    if opts != [] {
      SumHead((256 - Checksum(opts)) % 256, opts);
      assert Image(opts)[1..] == opts;
    }
  }

  /** Any change of a single stored byte is read as empty. */
  lemma SingleByteChangeDetected(opts: bytes, i: nat, b: byte)
    requires opts != [] && OptionsOk(opts) && i < |Image(opts)| && b != Image(opts)[i]
    ensures Loaded(Image(opts)[i := b]) == []
  {
    var s := Image(opts);
    var front, back := s[..i], s[i + 1..];
    ImageSum(opts);
    hide Image, ByteSum;
    Around(s, i, s[i]);
    Around(s, i, b);
    assert s[i := s[i]] == s;
    SumAround(front, s[i], back);
    SumAround(front, b, back);
    if Checksum(s[i := b]) == 0 { SameRemainder(ByteSum(front) + ByteSum(back), s[i], b); }
  }

  lemma Around(s: bytes, i: nat, b: byte)
    requires i < |s|
    ensures s[i := b] == s[..i] + [b] + s[i + 1..]
  {
  }

  lemma ImageSum(opts: bytes)
    ensures Checksum(Image(opts)) == 0
  {
    hide ByteSum;
    if opts == [] {
      assert ByteSum([]) == 0 by { NoSum(); }
    } else {
      SumHead((256 - Checksum(opts)) % 256, opts);
      Complement(ByteSum(opts));
    }
  }

  lemma NoSum()
    ensures ByteSum([]) == 0
  {
  }

  lemma Complement(n: nat)
    ensures ((256 - n % 256) % 256 + n) % 256 == 0
  {
    if n % 256 == 0 {
      assert (256 - n % 256) % 256 == 0;
    } else {
      assert (256 - n % 256) + n == 256 * (n / 256 + 1);
    }
  }

  lemma SumAround(front: bytes, x: byte, back: bytes)
    ensures ByteSum(front + [x] + back) == ByteSum(front) + x + ByteSum(back)
  {
    SumSplit(front + [x], back);
    SumSplit(front, [x]);
    assert ByteSum([x]) == x by { assert [x][1..] == []; }
  }

  lemma SameRemainder(n: nat, x: byte, y: byte)
    requires (n + x) % 256 == (n + y) % 256
    ensures x == y
  {
  }

  // ---------------------------------------------------------------- the driver

  /** The options block over its EFI variable.  A missing variable has no bytes. */
  class Nvo {
    var variable: bytes               // persists across restarts
    var data: array<byte>             // in-memory block: checksum byte, then options
    var opts: bytes                   // the options it holds

    ghost predicate Valid()
      reads this
    {
      OptionsOk(opts)
    }

    /** nvo_checksum */
    method ComputeChecksum() returns (sum: byte)
      ensures sum == Checksum(data[..])
    {
      sum := 0;
      for i := 0 to data.Length
        invariant sum == ByteSum(data[..i]) % 256
      {
        assert data[..i + 1] == data[..i] + [data[i]];
        SumSplit(data[..i], [data[i]]);
        assert ByteSum([data[i]]) == data[i] by { assert [data[i]][1..] == []; }
        ghost var before: int := ByteSum(data[..i]);
        assert (before % 256 + data[i]) % 256 == (before + data[i]) % 256;
        sum := ((sum as int) + data[i]) % 256;
      }
      assert data[..data.Length] == data[..];
    }

    /** nvo_realloc_dhcpopt and dhcpopt_store: resize the block to the new options.  The
        checksum byte keeps whatever value it had, or is arbitrary in fresh memory. */
    method Resize(newOpts: bytes, junk: byte)
      modifies this`data, this`opts
      ensures fresh(data) && opts == newOpts
      ensures if newOpts == [] then data.Length == 0
              else data.Length == |newOpts| + 1 && data[1..] == newOpts
    {
      var checksum := if data.Length > 0 then data[0] else junk;
      var len := if newOpts == [] then 0 else |newOpts| + 1;
      data := new byte[len](i => if i == 0 then checksum else if 0 < i <= |newOpts| then newOpts[i - 1] else 0);
      opts := newOpts;
      assert len > 0 ==> data[1..] == newOpts;
    }

    /** nvo_save: bring the byte sum to zero and write the block; an empty block erases. */
    method Save(writes: bool) returns (ok: bool)
      requires opts == [] ==> data.Length == 0
      requires opts != [] ==> data.Length == |opts| + 1 && data[1..] == opts
      modifies this`variable, data
      ensures ok == writes && data == old(data)
      ensures data[..] == Image(opts)
      ensures variable == if writes then Image(opts) else old(variable)
    {
      if data.Length > 0 {
        var sum := ComputeChecksum();
        ghost var before := data[0];
        assert data[..] == [before] + opts;
        SumHead(before, opts);
        data[0] := ((data[0] as int) - sum) % 256;
        assert data[..] == [data[0]] + opts;
        ClearsSum(before, opts);
      }
      ok := writes;
      if writes { variable := data[..]; }
    }

    /** nvo_store */
    method Store(newOpts: bytes, junk: byte, writes: bool) returns (ok: bool)
      requires Valid() && OptionsOk(newOpts)
      modifies this, data
      ensures Valid() && ok == writes && opts == newOpts && fresh(data)
      ensures variable == if writes then Image(newOpts) else old(variable)
    {
      Resize(newOpts, junk);
      ok := Save(writes);
    }

    /** efi_nvs_startup: probe the variable's length, allocate, and load.  The test of the
        first option byte is made on the byte behind the block when that has only a checksum. */
    method Startup(behind: byte) returns (pastEnd: bool)
      modifies this`data, this`opts
      ensures Valid() && opts == Loaded(variable) && fresh(data)
      ensures pastEnd <==> variable == [0]
    {
      pastEnd := false;
      var len := |variable|;
      data := new byte[len](_ => 0);
      opts := [];
      if len == 0 { return; }
      forall i | 0 <= i < len { data[i] := variable[i]; }
      assert data[..] == variable;
      var sum := ComputeChecksum();
      var empty := sum != 0;
      if sum == 0 {
        pastEnd := len < 2;
        empty := (if pastEnd then behind else data[1]) == 0;
      }
      if len == 1 {
        assert variable == [variable[0]];
        OneByteSum(variable[0]);
      }
      if empty {
        forall i | 0 <= i < len { data[i] := 0; }
      } else {
        opts := data[1..];
      }
    }
  }

  /** The options block through any history of stores and restarts: what is in the variable is
      read as the options last saved, and a restart brings them back. */
  method Drive(n: Nvo, es: seq<Event>, junk: byte, behind: byte)
    requires n.Valid() && EventsOk(es)
    modifies n, n.data
    ensures n.Valid() && State(n.variable, n.opts) == Run(State(old(n.variable), old(n.opts)), es)
    ensures Loaded(n.variable) == LastSaved(Loaded(old(n.variable)), es)
    ensures es != [] && es[|es| - 1].Restarts? ==> n.opts == LastSaved(Loaded(old(n.variable)), es)
  {
    hide Image, Loaded;
    var i := 0;
    assert es[..0] == [];
    while i < |es|
      invariant i <= |es| && n.Valid() && (n.data == old(n.data) || fresh(n.data))
      invariant State(n.variable, n.opts) == Run(State(old(n.variable), old(n.opts)), es[..i])
    {
      assert es[..i + 1][..i] == es[..i];
      RunLast(State(old(n.variable), old(n.opts)), es[..i + 1]);
      match es[i] {
        case Stores(o, writes) => var _ := n.Store(o, junk, writes);
        case Restarts => var _ := n.Startup(behind);
      }
      i := i + 1;
    }
    assert es[..|es|] == es;
    OptionsSurvive(old(n.variable), old(n.opts), es);
  }

  /** A stored block is read as options exactly when it is the block saved for them: one checksum
      byte that makes the byte sum a multiple of 256, and the options, which start with a tag. */
  lemma LoadedExactly(stored: bytes, opts: bytes)
    requires opts != []
    ensures Loaded(stored) == opts <==>
              |stored| >= 2 && stored[1..] == opts && opts[0] != 0 && ByteSum(stored) % 256 == 0
    ensures Loaded(stored) == opts <==> OptionsOk(opts) && stored == Image(opts)
  {
    LoadedFrom(stored, opts);
    ImageFrom(stored, opts);
    hide Loaded, Image, ByteSum;
  }

  lemma ImageFrom(stored: bytes, opts: bytes)
    requires opts != []
    ensures stored == Image(opts) <==> |stored| >= 2 && stored[1..] == opts && ByteSum(stored) % 256 == 0
  {
    ImageIs(opts);
    hide ByteSum, Image;
    if |stored| >= 2 && stored[1..] == opts {
      assert stored == [stored[0]] + opts;
      SumHead(stored[0], opts);
      if ByteSum(stored) % 256 == 0 { OnlyComplement(stored[0], ByteSum(opts)); }
    }
    ImageSum(opts);
    assert Image(opts)[1..] == opts;
  }

  lemma ImageIs(opts: bytes)
    requires opts != []
    ensures Image(opts) == [(256 - ByteSum(opts) % 256) % 256] + opts
  {
    hide ByteSum;
  }

  lemma LoadedFrom(stored: bytes, opts: bytes)
    requires opts != []
    ensures Loaded(stored) == opts <==>
              |stored| >= 2 && stored[1..] == opts && opts[0] != 0 && ByteSum(stored) % 256 == 0
  {
    hide ByteSum;
    if |stored| >= 2 { assert stored[1..][0] == stored[1]; }
  }

  lemma OnlyComplement(x: byte, n: nat)
    requires (x + n) % 256 == 0
    ensures x == (256 - n % 256) % 256
  {
    Complement(n);
    SameRemainder(n, x, (256 - n % 256) % 256);
  }

  lemma OneByteSum(b: byte)
    ensures Checksum([b]) == b
  {
    SumHead(b, []);
    assert [b] + [] == [b];
  }

  /** Subtracting the whole sum makes it zero, whatever the checksum byte was before. */
  lemma ClearsSum(before: byte, opts: bytes)
    requires opts != []
    ensures ((before as int) - Checksum([before] + opts)) % 256 == Image(opts)[0]
  {
    SumHead(before, opts);
  }

  // ---------------------------------------------------------------- histories

  datatype Event = Stores(opts: bytes, writes: bool) | Restarts

  datatype State = State(variable: bytes, opts: bytes)

  function Next(s: State, e: Event): State {
    match e
    case Stores(o, writes) => State(if writes then Image(o) else s.variable, o)
    case Restarts => s.(opts := Loaded(s.variable))
  }

  function Run(s: State, es: seq<Event>): State
    decreases |es|
  {
    if es == [] then s else Run(Next(s, es[0]), es[1..])
  }

  predicate EventsOk(es: seq<Event>) {
    forall i :: 0 <= i < |es| ==> es[i].Stores? ==> OptionsOk(es[i].opts)
  }

  /** The options last saved successfully, or those found at first. */
  function LastSaved(first: bytes, es: seq<Event>): bytes {
    if es == [] then first
    else
      var last := es[|es| - 1];
      if last.Stores? && last.writes then last.opts else LastSaved(first, es[..|es| - 1])
  }

  lemma {:induction false} RunLast(s: State, es: seq<Event>)
    requires es != []
    ensures Run(s, es) == Next(Run(s, es[..|es| - 1]), es[|es| - 1])
    decreases |es|
  {
    if |es| > 1 {
      RunLast(Next(s, es[0]), es[1..]);
      assert es[..|es| - 1][1..] == es[1..][..|es| - 2];
    } else {
      assert es[..0] == [] && es[1..] == [];
    }
  }

  /** Stored options survive restarts: for every history of stores, deletions, failed writes
      and restarts, starting from any contents of the variable, loading it yields exactly the
      options last saved; in particular nothing reappears after the last option is deleted. */
  lemma {:induction false} OptionsSurvive(variable: bytes, opts: bytes, es: seq<Event>)
    requires EventsOk(es)
    ensures var s := Run(State(variable, opts), es);
            Loaded(s.variable) == LastSaved(Loaded(variable), es)
    ensures es != [] && es[|es| - 1].Restarts? ==>
              Run(State(variable, opts), es).opts == LastSaved(Loaded(variable), es)
    decreases |es|
  {
    if es != [] {
      var front, last := es[..|es| - 1], es[|es| - 1];
      RunLast(State(variable, opts), es);
      OptionsSurvive(variable, opts, front);
      if last.Stores? { LoadedImage(last.opts); }
    }
  }
}
