/**
 * I2C/i2c_devices_register.c: a kernel module that registers the TCA9555
 * (0x20), PCF8574 (0x21) and ADS1115 (0x48) on I2C bus 1, exercises each once,
 * and unregisters them on unload. The kernel is an environment value: the
 * results i2c_transfer returns (a plan, one entry per call; with the plan used
 * up a transfer moves every message), which kmalloc calls fail, the log of
 * message batches handed to i2c_transfer, and the count of live kmalloc
 * buffers.
 */
module KernelI2c {
  import opened Wrappers

  const TCA9555_ADDR: nat := 0x20
  const PCF8574_ADDR: nat := 0x21
  const ADS1115_ADDR: nat := 0x48
  const I2C_BUS_NUM: nat := 1

  /** errno values, as <uapi/asm-generic/errno-base.h> numbers them. */
  const ENOMEM: int := 12
  const ENODEV: int := 19
  const EINVAL: int := 22

  /** The read flag of struct i2c_msg. */
  const I2C_M_RD: int := 0x0001

  /** A registered i2c_client; only its 7-bit address matters here. */
  datatype Client = Client(addr: nat)

  /** One struct i2c_msg; `bytes` is what a write message carries, empty for a read. */
  datatype Msg = Msg(addr: nat, flags: int, len: nat, bytes: seq<bv8>)

  /** The range of the `__u16` length field of struct i2c_msg. */
  const U16_RANGE: nat := 0x1_0000

  /**
   * Storing a positive C `int` into a `__u16` field: the value modulo 2^16,
   * so a length of 65536 or more arrives shortened.
   */
  function U16(n: int): (r: nat)
    ensures r < U16_RANGE && (n - r) % U16_RANGE == 0
    ensures 0 <= n < U16_RANGE ==> r == n
  {
    n % U16_RANGE
  }

  datatype Env = Env(transfers: seq<int>, allocFails: seq<bool>, log: seq<seq<Msg>>, live: nat, adapterRefs: int)

  /** What i2c_transfer returns for this batch: the planned result, or the number of messages. */
  function TransferResult(env: Env, msgs: seq<Msg>): int
  {
    if |env.transfers| == 0 then |msgs| else env.transfers[0]
  }

  /** i2c_transfer: the batch is logged and one planned result used up. */
  function Transfer(env: Env, msgs: seq<Msg>): (r: (int, Env))
    ensures r.0 == TransferResult(env, msgs)
    ensures r.1.log == env.log + [msgs]
    ensures r.1.live == env.live && r.1.allocFails == env.allocFails && r.1.adapterRefs == env.adapterRefs
  {
    (TransferResult(env, msgs),
     env.(transfers := if |env.transfers| == 0 then [] else env.transfers[1..], log := env.log + [msgs]))
  }

  predicate AllocFails(env: Env)
  {
    |env.allocFails| > 0 && env.allocFails[0]
  }

  /** kmalloc: NULL when the plan says so, otherwise one more live buffer. */
  function Alloc(env: Env): (r: (bool, Env))
    ensures r.0 <==> !AllocFails(env)
    ensures r.1.live == if r.0 then env.live + 1 else env.live
    ensures r.1.log == env.log && r.1.transfers == env.transfers && r.1.adapterRefs == env.adapterRefs
  {
    var rest := env.(allocFails := if |env.allocFails| == 0 then [] else env.allocFails[1..]);
    if AllocFails(env) then (false, rest) else (true, rest.(live := env.live + 1))
  }

  /** The parameter check both transfer helpers start with. */
  predicate ValidArgs(client: Option<Client>, bufPresent: bool, len: int)
  {
    client.Some? && bufPresent && len > 0
  }

  /** The batch i2c_device_read sends: write the register address, then read len bytes. */
  function ReadFrame(addr: nat, reg: bv8, len: int): (r: seq<Msg>)
    ensures |r| == 2 && r[0].addr == addr && r[1].addr == addr
    ensures r[0].flags == 0 && r[0].bytes == [reg] && r[0].len == |r[0].bytes|
    ensures r[1].flags == I2C_M_RD && r[1].len < U16_RANGE && (len - r[1].len) % U16_RANGE == 0
    ensures 0 <= len < U16_RANGE ==> r[1].len == len
  {
    [Msg(addr, 0, 1, [reg]), Msg(addr, I2C_M_RD, U16(len), [])]
  }

  /** The message i2c_device_write sends: the register address followed by the data. */
  function WriteFrame(addr: nat, reg: bv8, data: seq<bv8>): (r: Msg)
    ensures r.addr == addr && r.flags == 0
    ensures |r.bytes| == |data| + 1
    ensures r.len < U16_RANGE && (|r.bytes| - r.len) % U16_RANGE == 0
    ensures |data| + 1 < U16_RANGE ==> r.len == |r.bytes|
    ensures r.bytes[0] == reg && r.bytes[1..] == data
  {
    Msg(addr, 0, U16(|data| + 1), [reg] + data)
  }

  /**
   * i2c_device_read: -EINVAL without touching the bus for a NULL client, a
   * NULL buffer or len <= 0; otherwise one two-message transfer, whose
   * negative result is passed on and whose non-negative result becomes 0.
   */
  function DeviceRead(env: Env, client: Option<Client>, reg: bv8, bufPresent: bool, len: int): (r: (int, Env))
    ensures !ValidArgs(client, bufPresent, len) ==> r == (-EINVAL, env)
    ensures ValidArgs(client, bufPresent, len) ==>
      var sent := ReadFrame(client.value.addr, reg, len);
      && r.1.log == env.log + [sent]
      && r.0 == (if TransferResult(env, sent) < 0 then TransferResult(env, sent) else 0)
    ensures r.1.live == env.live && r.1.allocFails == env.allocFails && r.1.adapterRefs == env.adapterRefs
  {
    if !ValidArgs(client, bufPresent, len) then (-EINVAL, env)
    else
      var done := Transfer(env, ReadFrame(client.value.addr, reg, len));
      var ret, after := done.0, done.1;
      if ret < 0 then (ret, after) else (0, after)
  }

  /**
   * i2c_device_write: -EINVAL for bad arguments, -ENOMEM without a transfer
   * when kmalloc fails, otherwise one message of len + 1 bytes; the buffer
   * is freed on the error path and on the success path alike.
   */
  function DeviceWrite(env: Env, client: Option<Client>, reg: bv8, buf: Option<seq<bv8>>, len: int): (r: (int, Env))
    requires buf.Some? && len > 0 ==> len <= |buf.value|
    ensures !ValidArgs(client, buf.Some?, len) ==> r == (-EINVAL, env)
    ensures ValidArgs(client, buf.Some?, len) && AllocFails(env) ==> r.0 == -ENOMEM && r.1.log == env.log
    ensures ValidArgs(client, buf.Some?, len) && !AllocFails(env) ==>
      var sent := [WriteFrame(client.value.addr, reg, buf.value[..len])];
      && r.1.log == env.log + [sent]
      && r.0 == (if TransferResult(env, sent) < 0 then TransferResult(env, sent) else 0)
    ensures r.1.live == env.live && r.1.adapterRefs == env.adapterRefs
  {
    if !ValidArgs(client, buf.Some?, len) then (-EINVAL, env)
    else
      var alloc := Alloc(env);
      var ok, withBuf := alloc.0, alloc.1;
      if !ok then (-ENOMEM, withBuf)
      else
        var done := Transfer(withBuf, [WriteFrame(client.value.addr, reg, buf.value[..len])]);
        var ret, after := done.0, done.1;
        var freed := after.(live := after.live - 1);
        if ret < 0 then (ret, freed) else (0, freed)
  }

  /** Every value the two helpers return: 0, -EINVAL, -ENOMEM (write only), or a negative transfer result. */
  lemma HelperResults(env: Env, client: Option<Client>, reg: bv8, bufPresent: bool, buf: Option<seq<bv8>>, len: int)
    requires buf.Some? && len > 0 ==> len <= |buf.value|
    ensures var ret := DeviceRead(env, client, reg, bufPresent, len).0;
      ret <= 0 && (ret == 0 || ret == -EINVAL || (ValidArgs(client, bufPresent, len) && ret == TransferResult(env, ReadFrame(client.value.addr, reg, len))))
    ensures var ret := DeviceWrite(env, client, reg, buf, len).0;
      ret <= 0 && (ret == 0 || ret == -EINVAL || ret == -ENOMEM
                   || (ValidArgs(client, buf.Some?, len) && ret == TransferResult(env, [WriteFrame(client.value.addr, reg, buf.value[..len])])))
  {
  }

  /**
   * tca9555_test: -ENODEV without a client; reads input port 0 and, only
   * when that transfer did not fail, input port 1. It fails exactly when
   * one of the transfers it made failed.
   */
  function TcaTest(env: Env, client: Option<Client>): (r: (int, Env))
    ensures client.None? ==> r == (-ENODEV, env)
    ensures client.Some? ==>
      var port0, port1 := ReadFrame(client.value.addr, 0x00, 1), ReadFrame(client.value.addr, 0x01, 1);
      var mid := Transfer(env, port0).1;
      && r.1.log == env.log + [port0] + (if TransferResult(env, port0) < 0 then [] else [port1])
      && (r.0 < 0 <==> TransferResult(env, port0) < 0 || TransferResult(mid, port1) < 0)
    ensures r.0 <= 0
    ensures r.1.live == env.live && r.1.adapterRefs == env.adapterRefs
  {
    if client.None? then (-ENODEV, env)
    else
      var first := DeviceRead(env, client, 0x00, true, 1);
      var ret, env1 := first.0, first.1;
      if ret < 0 then (ret, env1) else DeviceRead(env1, client, 0x01, true, 1)
  }

  /**
   * pcf8574_test: -ENODEV without a client; reads the port and, only when
   * that transfer did not fail, writes 0x01 to it, which sends nothing and
   * gives -ENOMEM when the buffer cannot be allocated.
   */
  function PcfTest(env: Env, client: Option<Client>): (r: (int, Env))
    ensures client.None? ==> r == (-ENODEV, env)
    ensures client.Some? ==>
      var port, write := ReadFrame(client.value.addr, 0x00, 1), [WriteFrame(client.value.addr, 0x00, [0x01])];
      var mid := Transfer(env, port).1;
      && r.1.log == env.log + [port] + (if TransferResult(env, port) < 0 || AllocFails(mid) then [] else [write])
      && (r.0 == 0 <==> TransferResult(env, port) >= 0 && !AllocFails(mid) && TransferResult(mid, write) >= 0)
      && (TransferResult(env, port) >= 0 && AllocFails(mid) ==> r.0 == -ENOMEM)
    ensures r.0 <= 0
    ensures r.1.live == env.live && r.1.adapterRefs == env.adapterRefs
  {
    if client.None? then (-ENODEV, env)
    else
      var first := DeviceRead(env, client, 0x00, true, 1);
      var ret, env1 := first.0, first.1;
      if ret < 0 then (ret, env1)
      else
        assert [0x01 as bv8][..1] == [0x01];
        DeviceWrite(env1, client, 0x00, Some([0x01]), 1)
  }

  /** ads1115_test: -ENODEV without a client; one transfer reading the two-byte conversion register. */
  function AdsTest(env: Env, client: Option<Client>): (r: (int, Env))
    ensures client.None? ==> r == (-ENODEV, env)
    ensures client.Some? ==>
      var conv := ReadFrame(client.value.addr, 0x00, 2);
      && r.1.log == env.log + [conv]
      && (r.0 == 0 <==> TransferResult(env, conv) >= 0)
    ensures r.0 <= 0
    ensures r.1.live == env.live && r.1.adapterRefs == env.adapterRefs
  {
    if client.None? then (-ENODEV, env) else DeviceRead(env, client, 0x00, true, 2)
  }

  /** The three global client pointers; None is NULL. */
  datatype Clients = Clients(tca: Option<Client>, pcf: Option<Client>, ads: Option<Client>)

  /** The module's state as the kernel sees it: the pointers and the devices on the bus by address. */
  datatype Module = Module(clients: Clients, devices: multiset<nat>)

  /** i2c_new_client_device: the client, or NULL when registration failed (IS_ERR). */
  function Register(devices: multiset<nat>, addr: nat, ok: bool): (r: (Option<Client>, multiset<nat>))
    ensures r.0.Some? <==> ok
    ensures ok ==> r.0 == Some(Client(addr)) && r.1 == devices + multiset{addr}
    ensures !ok ==> r.1 == devices
  {
    if ok then (Some(Client(addr)), devices + multiset{addr}) else (None, devices)
  }

  /** Every message of every batch goes to one of the addresses. */
  predicate AddressedTo(batches: seq<seq<Msg>>, addrs: multiset<nat>)
  {
    forall i, j :: 0 <= i < |batches| && 0 <= j < |batches[i]| ==> batches[i][j].addr in addrs
  }

  /** The device tests of step 5, each only when its client is not NULL; their results are ignored. */
  function RunTests(env: Env, c: Clients): (r: Env)
    ensures c == Clients(None, None, None) ==> r == env
    ensures env.log <= r.log
    ensures r.live == env.live && r.adapterRefs == env.adapterRefs
  {
    var env1 := if c.tca.Some? then TcaTest(env, c.tca).1 else env;
    var env2 := if c.pcf.Some? then PcfTest(env1, c.pcf).1 else env1;
    if c.ads.Some? then AdsTest(env2, c.ads).1 else env2
  }

  /** A test appends to the log a non-empty run of batches, all to its client, the first being `first`. */
  predicate SendsFrom(before: Env, after: Env, addr: nat, first: seq<Msg>)
  {
    && before.log < after.log
    && after.log[|before.log|] == first
    && AddressedTo(after.log[|before.log|..], multiset{addr})
  }

  lemma TestsSend(env: Env, client: Client)
    ensures SendsFrom(env, TcaTest(env, Some(client)).1, client.addr, ReadFrame(client.addr, 0x00, 1))
    ensures SendsFrom(env, PcfTest(env, Some(client)).1, client.addr, ReadFrame(client.addr, 0x00, 1))
    ensures SendsFrom(env, AdsTest(env, Some(client)).1, client.addr, ReadFrame(client.addr, 0x00, 2))
  {
    var a := client.addr;
    assert WriteFrame(a, 0x00, [0x01]).addr == a;
  }

  /** Appending batches addressed within a larger address set stays addressed within it. */
  lemma AddressedAppend(xs: seq<seq<Msg>>, ys: seq<seq<Msg>>, a: multiset<nat>, b: multiset<nat>, all: multiset<nat>)
    requires AddressedTo(xs, a) && AddressedTo(ys, b) && a <= all && b <= all
    ensures AddressedTo(xs + ys, all)
  {
    forall i, j | 0 <= i < |xs + ys| && 0 <= j < |(xs + ys)[i]|
      ensures (xs + ys)[i][j].addr in all
    {
      if i < |xs| {
        assert (xs + ys)[i] == xs[i];
      } else {
        assert (xs + ys)[i] == ys[i - |xs|];
      }
    }
  }

  /** The addresses of an optional client, as a multiset. */
  function AddrOf(client: Option<Client>): (r: multiset<nat>)
    ensures client.None? ==> r == multiset{}
    ensures client.Some? ==> r == multiset{client.value.addr}
  {
    if client.Some? then multiset{client.value.addr} else multiset{}
  }

  /** One step of RunTests: a skipped test sends nothing, a run test sends from its client. */
  predicate Step(before: Env, after: Env, client: Option<Client>, first: seq<Msg>)
  {
    && before.log <= after.log
    && AddressedTo(after.log[|before.log|..], AddrOf(client))
    && (client.Some? ==> |before.log| < |after.log| && after.log[|before.log|] == first)
  }

  /** Three steps chained: the batches of all three, and each step's first batch, are in the combined suffix. */
  lemma ChainSteps(e0: Env, e1: Env, e2: Env, e3: Env, c: Clients, f1: seq<Msg>, f2: seq<Msg>, f3: seq<Msg>)
    requires Step(e0, e1, c.tca, f1) && Step(e1, e2, c.pcf, f2) && Step(e2, e3, c.ads, f3)
    ensures e0.log <= e3.log
    ensures AddressedTo(e3.log[|e0.log|..], Held(c))
    ensures c.tca.Some? ==> f1 in e3.log[|e0.log|..]
    ensures c.pcf.Some? ==> f2 in e3.log[|e0.log|..]
    ensures c.ads.Some? ==> f3 in e3.log[|e0.log|..]
  {
    var s1, s2, s3 := e1.log[|e0.log|..], e2.log[|e1.log|..], e3.log[|e2.log|..];
    assert e3.log[|e0.log|..] == s1 + s2 + s3;
    assert Held(c) == AddrOf(c.tca) + AddrOf(c.pcf) + AddrOf(c.ads);
    AddressedAppend(s1, s2, AddrOf(c.tca), AddrOf(c.pcf), AddrOf(c.tca) + AddrOf(c.pcf));
    AddressedAppend(s1 + s2, s3, AddrOf(c.tca) + AddrOf(c.pcf), AddrOf(c.ads), Held(c));
    if c.tca.Some? { assert (s1 + s2 + s3)[0] == s1[0]; }
    if c.pcf.Some? { assert (s1 + s2 + s3)[|s1|] == s2[0]; }
    if c.ads.Some? { assert (s1 + s2 + s3)[|s1| + |s2|] == s3[0]; }
  }

  /**
   * What the tests put on the bus: only batches to registered clients, and
   * for every non-NULL client at least the first read of its test. A NULL
   * client's test is skipped, so nothing is addressed to it.
   */
  lemma RunTestsSends(env: Env, c: Clients)
    ensures var r := RunTests(env, c);
      && AddressedTo(r.log[|env.log|..], Held(c))
      && (c.tca.Some? ==> ReadFrame(c.tca.value.addr, 0x00, 1) in r.log[|env.log|..])
      && (c.pcf.Some? ==> ReadFrame(c.pcf.value.addr, 0x00, 1) in r.log[|env.log|..])
      && (c.ads.Some? ==> ReadFrame(c.ads.value.addr, 0x00, 2) in r.log[|env.log|..])
  {
    var env1 := if c.tca.Some? then TcaTest(env, c.tca).1 else env;
    var env2 := if c.pcf.Some? then PcfTest(env1, c.pcf).1 else env1;
    var env3 := if c.ads.Some? then AdsTest(env2, c.ads).1 else env2;
    assert env3 == RunTests(env, c);
    TcaStep(env, c.tca);
    PcfStep(env1, c.pcf);
    AdsStep(env2, c.ads);
    ChainSteps(env, env1, env2, env3, c, FirstRead(c.tca, 1), FirstRead(c.pcf, 1), FirstRead(c.ads, 2));
  }

  /** The first read a test sends to a client, if there is one. */
  function FirstRead(client: Option<Client>, len: int): (r: seq<Msg>)
    ensures client.Some? ==> r == ReadFrame(client.value.addr, 0x00, len)
  {
    if client.Some? then ReadFrame(client.value.addr, 0x00, len) else []
  }

  /** The first step of RunTests: the TCA9555 test when its client is registered. */
  lemma TcaStep(env: Env, client: Option<Client>)
    ensures Step(env, if client.Some? then TcaTest(env, client).1 else env, client, FirstRead(client, 1))
  {
    if client.Some? { TestsSend(env, client.value); } else { assert env.log[|env.log|..] == []; }
  }

  /** The second step of RunTests: the PCF8574 test when its client is registered. */
  lemma PcfStep(env: Env, client: Option<Client>)
    ensures Step(env, if client.Some? then PcfTest(env, client).1 else env, client, FirstRead(client, 1))
  {
    if client.Some? { TestsSend(env, client.value); } else { assert env.log[|env.log|..] == []; }
  }

  /** The third step of RunTests: the ADS1115 test when its client is registered. */
  lemma AdsStep(env: Env, client: Option<Client>)
    ensures Step(env, if client.Some? then AdsTest(env, client).1 else env, client, FirstRead(client, 2))
  {
    if client.Some? { TestsSend(env, client.value); } else { assert env.log[|env.log|..] == []; }
  }

  /**
   * i2c_devices_init: -ENODEV and no change at all without adapter 1;
   * otherwise each of the three devices registers on its own (a failure
   * leaves only its pointer NULL), the adapter reference is given back, the
   * tests run, and the result is 0 whatever they return.
   */
  function Init(m: Module, env: Env, adapterPresent: bool, tcaOk: bool, pcfOk: bool, adsOk: bool): (r: (int, Module, Env))
    ensures !adapterPresent ==> r == (-ENODEV, m, env)
    ensures adapterPresent ==> r.0 == 0
    ensures adapterPresent ==>
      && r.1.clients.tca == (if tcaOk then Some(Client(TCA9555_ADDR)) else None)
      && r.1.clients.pcf == (if pcfOk then Some(Client(PCF8574_ADDR)) else None)
      && r.1.clients.ads == (if adsOk then Some(Client(ADS1115_ADDR)) else None)
    ensures r.2.live == env.live && r.2.adapterRefs == env.adapterRefs
  {
    if !adapterPresent then (-ENODEV, m, env)
    else
      var held := env.(adapterRefs := env.adapterRefs + 1);
      var tca_d1 := Register(m.devices, TCA9555_ADDR, tcaOk);
      var tca, d1 := tca_d1.0, tca_d1.1;
      var pcf_d2 := Register(d1, PCF8574_ADDR, pcfOk);
      var pcf, d2 := pcf_d2.0, pcf_d2.1;
      var ads_d3 := Register(d2, ADS1115_ADDR, adsOk);
      var ads, d3 := ads_d3.0, ads_d3.1;
      var released := held.(adapterRefs := held.adapterRefs - 1);
      var clients := Clients(tca, pcf, ads);
      (0, Module(clients, d3), RunTests(released, clients))
  }

  /** The addresses of the non-NULL pointers, as a multiset. */
  function Held(c: Clients): multiset<nat>
  {
    (if c.tca.Some? then multiset{c.tca.value.addr} else multiset{})
    + (if c.pcf.Some? then multiset{c.pcf.value.addr} else multiset{})
    + (if c.ads.Some? then multiset{c.ads.value.addr} else multiset{})
  }

  /** i2c_unregister_device for each non-NULL pointer, in order; the unregistered addresses are returned too. */
  function Exit(m: Module): (r: (Module, seq<nat>))
    ensures r.0.clients == Clients(None, None, None)
    ensures multiset(r.1) == Held(m.clients)
    ensures r.0.devices == m.devices - Held(m.clients)
  {
    var c := m.clients;
    var gone := (if c.tca.Some? then [c.tca.value.addr] else [])
                + (if c.pcf.Some? then [c.pcf.value.addr] else [])
                + (if c.ads.Some? then [c.ads.value.addr] else []);
    (Module(Clients(None, None, None), m.devices - multiset(gone)), gone)
  }

  /** Loading the module adds to the bus exactly the devices whose pointers it keeps. */
  lemma InitDevices(m: Module, env: Env, tcaOk: bool, pcfOk: bool, adsOk: bool)
    ensures var loaded := Init(m, env, true, tcaOk, pcfOk, adsOk).1;
      loaded.devices == m.devices + Held(loaded.clients)
  {
  }

  /** Loading then unloading the module leaves the bus with exactly the devices it had before. */
  lemma InitExitRestores(m: Module, env: Env, tcaOk: bool, pcfOk: bool, adsOk: bool)
    requires m.clients == Clients(None, None, None)
    ensures Exit(Init(m, env, true, tcaOk, pcfOk, adsOk).1).0 == m
  {
    var loaded := Init(m, env, true, tcaOk, pcfOk, adsOk).1;
    InitDevices(m, env, tcaOk, pcfOk, adsOk);
    var held := Held(loaded.clients);
    assert (m.devices + held) - held == m.devices;
    assert Exit(loaded).0 == Module(Clients(None, None, None), m.devices);
  }

  /** Unloading twice does nothing the second time. */
  lemma ExitIdempotent(m: Module)
    ensures Exit(Exit(m).0) == (Exit(m).0, [])
  {
    var once := Exit(m).0;
    assert once.devices - multiset{} == once.devices;
  }

  /** Init touches the bus only through the tests of registered devices: with none registered nothing is sent. */
  lemma InitWithoutDevicesIsSilent(m: Module, env: Env, adapterPresent: bool)
    ensures Init(m, env, adapterPresent, false, false, false).2.log == env.log
  {
  }

  /**
   * Every message either helper sends is addressed to the client; a write
   * message's length counts its bytes and a read's is the length asked for,
   * as long as they fit the 16-bit length field.
   */
  lemma FramesWellFormed(env: Env, client: Option<Client>, reg: bv8, buf: Option<seq<bv8>>, len: int)
    requires ValidArgs(client, buf.Some?, len) && len <= |buf.value|
    requires !AllocFails(env)
    ensures var sent := DeviceWrite(env, client, reg, buf, len).1.log[|env.log|];
      |sent| == 1 && sent[0].addr == client.value.addr && |sent[0].bytes| == len + 1
      && (len + 1 < U16_RANGE ==> sent[0].len == len + 1)
      && (len + 1 == U16_RANGE ==> sent[0].len == 0)
      && sent[0].bytes == [reg] + buf.value[..len]
    ensures var sent := DeviceRead(env, client, reg, true, len).1.log[|env.log|];
      |sent| == 2 && sent[0].addr == sent[1].addr == client.value.addr
      && (len < U16_RANGE ==> sent[1].len == len) && (len == U16_RANGE ==> sent[1].len == 0)
  {
  }
}
