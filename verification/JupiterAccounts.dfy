/**
 The account list of a relayed Jupiter instruction. The program rebuilds it from its own accounts and the
 remaining accounts it is given; the client has to have taken exactly those out of Jupiter's list.
 */
module JupiterAccounts {
  import opened Words
  import opened Tables
  import opened JupiterRoute

  /** Ids of the two token programs. */
  const SPL_TOKEN: Key := 1
  const TOKEN_2022: Key := 2

  /** An entry of an instruction's account list. */
  datatype Meta = Meta(key: Key, signer: bool, writable: bool)

  function ReadOnly(key: Key): Meta { Meta(key, false, false) }

  function Writable(key: Key): Meta { Meta(key, false, true) }

  /** A remaining account: its entry, its owner, and the token account it names if it is a token ledger. */
  datatype Account = Account(meta: Meta, owner: Key, ledgerOf: Option<Key>)

  /** The accounts of the swap that the program itself holds. */
  datatype SwapAccounts = SwapAccounts(
    sourceTokenProgram: Key,
    destinationTokenProgram: Key,
    authority: Key,
    source: Key,
    destination: Key,
    sourceMint: Key,
    destinationMint: Key,
    eventAuthority: Key,
    jupiter: Key)
  {
    /** The optional slot for Token-2022, which holds Jupiter's own id when neither leg is Token-2022. */
    function Token2022Slot(): Key {
      if sourceTokenProgram == TOKEN_2022 || destinationTokenProgram == TOKEN_2022 then TOKEN_2022 else jupiter
    }
  }

  /** The accounts handed to the call, and the list that the instruction names. */
  datatype AccountLists = AccountLists(infos: seq<Key>, metas: seq<Meta>)

  function MetasOf(accounts: seq<Account>): seq<Meta> {
    seq(|accounts|, i requires 0 <= i < |accounts| => accounts[i].meta)
  }

  function KeysOf(metas: seq<Meta>): seq<Key> {
    seq(|metas|, i requires 0 <= i < |metas| => metas[i].key)
  }

  lemma {:induction false} OneMoreAccount(accounts: seq<Account>, from: nat, i: nat)
    requires from <= i < |accounts|
    ensures MetasOf(accounts[from..i + 1]) == MetasOf(accounts[from..i]) + [accounts[i].meta]
    ensures KeysOf(MetasOf(accounts[from..i + 1])) == KeysOf(MetasOf(accounts[from..i])) + [accounts[i].meta.key]
  {
    assert accounts[from..i + 1] == accounts[from..i] + [accounts[i]];
  }

  lemma {:induction false} SplitAccounts(accounts: seq<Account>, c: nat)
    requires c <= |accounts|
    ensures MetasOf(accounts[..c]) == MetasOf(accounts)[..c] && MetasOf(accounts[c..]) == MetasOf(accounts)[c..]
    ensures KeysOf(MetasOf(accounts)) == KeysOf(MetasOf(accounts[..c])) + KeysOf(MetasOf(accounts[c..]))
  {
    var metas := MetasOf(accounts);
    assert forall i :: 0 <= i < c ==> MetasOf(accounts[..c])[i] == metas[i];
    assert forall i :: c <= i < |accounts| ==> MetasOf(accounts[c..])[i - c] == metas[i];
    assert KeysOf(metas) == KeysOf(metas[..c]) + KeysOf(metas[c..]);
  }

  // The fixed slots of each variant

  function FixedLen(v: SwapVariant): nat {
    match v
    case Route => 9
    case RouteWithTokenLedger => 10
    case ExactOutRoute => 11
    case SharedAccountsRoute => 13
    case SharedAccountsExactOutRoute => 13
  }

  /** How many remaining accounts go into fixed slots. */
  function Consumed(v: SwapVariant): nat {
    match v
    case Route => 0
    case RouteWithTokenLedger => 1
    case ExactOutRoute => 0
    case SharedAccountsRoute => 3
    case SharedAccountsExactOutRoute => 3
  }

  /** The fixed slots, with the keys of the consumed remaining accounts in theirs. */
  function FixedSlots(v: SwapVariant, s: SwapAccounts, consumed: seq<Key>): (slots: seq<Meta>)
    requires |consumed| == Consumed(v)
    ensures |slots| == FixedLen(v)
  {
    match v
    case Route =>
      [ReadOnly(SPL_TOKEN), Meta(s.authority, true, false), Writable(s.source), Writable(s.destination),
       ReadOnly(s.jupiter), ReadOnly(s.destinationMint), ReadOnly(s.jupiter), ReadOnly(s.eventAuthority), ReadOnly(s.jupiter)]
    case RouteWithTokenLedger =>
      [ReadOnly(SPL_TOKEN), Meta(s.authority, true, false), Writable(s.source), Writable(s.destination),
       ReadOnly(s.jupiter), ReadOnly(s.destinationMint), ReadOnly(s.jupiter), ReadOnly(consumed[0]),
       ReadOnly(s.eventAuthority), ReadOnly(s.jupiter)]
    case ExactOutRoute =>
      [ReadOnly(SPL_TOKEN), Meta(s.authority, true, false), Writable(s.source), Writable(s.destination),
       ReadOnly(s.jupiter), ReadOnly(s.sourceMint), ReadOnly(s.destinationMint), ReadOnly(s.jupiter),
       ReadOnly(s.Token2022Slot()), ReadOnly(s.eventAuthority), ReadOnly(s.jupiter)]
    case SharedAccountsRoute => SharedSlots(s, consumed)
    case SharedAccountsExactOutRoute => SharedSlots(s, consumed)
  }

  function SharedSlots(s: SwapAccounts, consumed: seq<Key>): (slots: seq<Meta>)
    requires |consumed| == 3
    ensures |slots| == 13
  {
    [ReadOnly(SPL_TOKEN), ReadOnly(consumed[0]), Meta(s.authority, true, false), Writable(s.source),
     Writable(consumed[1]), Writable(consumed[2]), Writable(s.destination), ReadOnly(s.sourceMint),
     ReadOnly(s.destinationMint), ReadOnly(s.jupiter), ReadOnly(s.Token2022Slot()), ReadOnly(s.eventAuthority),
     ReadOnly(s.jupiter)]
  }

  /** The accounts handed to the call ahead of the remaining ones. */
  function FirstInfos(v: SwapVariant, s: SwapAccounts, consumed: seq<Key>): seq<Key>
    requires |consumed| == Consumed(v)
  {
    match v
    case Route =>
      [s.sourceTokenProgram, s.destinationTokenProgram, s.authority, s.source, s.destination,
       s.destinationMint, s.eventAuthority, s.jupiter]
    case RouteWithTokenLedger =>
      [s.sourceTokenProgram, s.destinationTokenProgram, s.authority, s.source, s.destination,
       s.destinationMint, consumed[0], s.eventAuthority, s.jupiter]
    case ExactOutRoute =>
      [s.sourceTokenProgram, s.destinationTokenProgram, s.authority, s.source, s.destination,
       s.sourceMint, s.destinationMint, s.eventAuthority, s.jupiter]
    case SharedAccountsRoute => SharedInfos(s, consumed)
    case SharedAccountsExactOutRoute => SharedInfos(s, consumed)
  }

  function SharedInfos(s: SwapAccounts, consumed: seq<Key>): seq<Key>
    requires |consumed| == 3
  {
    [s.sourceTokenProgram, s.destinationTokenProgram, consumed[0], s.authority, s.source, consumed[1], consumed[2],
     s.destination, s.sourceMint, s.destinationMint, s.eventAuthority, s.jupiter]
  }

  /** Where the remaining accounts handed over begin: shared routes hand over those in fixed slots a second time. */
  function InfosFrom(v: SwapVariant): nat {
    if v.RouteWithTokenLedger? then 1 else 0
  }

  /** What the remaining accounts must satisfy before the list is built. */
  function CheckRemaining(v: SwapVariant, s: SwapAccounts, remaining: seq<Account>): Result<()> {
    match v
    case RouteWithTokenLedger =>
      if remaining == [] then Err(InvalidRemainingAccounts) else
      if remaining[0].owner != s.jupiter then Err(InvalidProgramId) else
      if remaining[0].ledgerOf.None? then Err(AccountNotDeserialized) else
      Validate(remaining[0].ledgerOf.value == s.source, InvalidTokenAccountOwner)
    case SharedAccountsRoute => Validate(3 <= |remaining|, Panicked)
    case SharedAccountsExactOutRoute => Validate(3 <= |remaining|, Panicked)
    case Route => Ok(())
    case ExactOutRoute => Ok(())
  }

  /** The list the program names in the call: fixed slots, then the remaining accounts not consumed by them. */
  function Rebuilt(v: SwapVariant, s: SwapAccounts, remaining: seq<Account>): seq<Meta>
    requires Consumed(v) <= |remaining|
  {
    FixedSlots(v, s, KeysOf(MetasOf(remaining[..Consumed(v)]))) + MetasOf(remaining[Consumed(v)..])
  }

  /** The accounts it hands to the call, in order and with repetitions. */
  function Handed(v: SwapVariant, s: SwapAccounts, remaining: seq<Account>): seq<Key>
    requires Consumed(v) <= |remaining|
  {
    FirstInfos(v, s, KeysOf(MetasOf(remaining[..Consumed(v)]))) + KeysOf(MetasOf(remaining[InfosFrom(v)..]))
  }

  // The roles of the fixed slots

  function AuthoritySlot(v: SwapVariant): nat {
    if v.SharedAccountsRoute? || v.SharedAccountsExactOutRoute? then 2 else 1
  }

  /** The slots that the call may write to. */
  function WritableSlots(v: SwapVariant): set<nat> {
    if v.SharedAccountsRoute? || v.SharedAccountsExactOutRoute? then {3, 4, 5, 6} else {2, 3}
  }

  /**
   Whom the list lets sign and what it lets the call write to, among the fixed slots: the vault alone signs; it is
   the source account that comes first and the destination account that comes last of those written to, with
   Jupiter's own two between them in a shared route, in the order they were given.
   */
  lemma SlotRoles(v: SwapVariant, s: SwapAccounts, consumed: seq<Key>)
    requires |consumed| == Consumed(v)
    ensures var slots := FixedSlots(v, s, consumed);
      (forall i :: 0 <= i < |slots| ==> (slots[i].signer <==> i == AuthoritySlot(v)))
      && (forall i :: 0 <= i < |slots| ==> (slots[i].writable <==> i in WritableSlots(v)))
      && slots[AuthoritySlot(v)].key == s.authority
      && slots[AuthoritySlot(v) + 1].key == s.source
      && (if 3 == Consumed(v)
          then slots[1].key == consumed[0] && slots[4].key == consumed[1] && slots[5].key == consumed[2]
               && slots[6].key == s.destination
          else slots[3].key == s.destination)
  {
  }

  /** Where the programs and the mints stand, counted from the end: event authority and Jupiter close every list. */
  lemma SlotPrograms(v: SwapVariant, s: SwapAccounts, consumed: seq<Key>)
    requires |consumed| == Consumed(v)
    ensures var slots := FixedSlots(v, s, consumed);
      var n := |slots|;
      slots[0].key == SPL_TOKEN && slots[n - 2].key == s.eventAuthority && slots[n - 1].key == s.jupiter
      && (v.Route? || v.RouteWithTokenLedger? ==>
            slots[4].key == s.jupiter && slots[5].key == s.destinationMint && slots[6].key == s.jupiter)
      && (v.RouteWithTokenLedger? ==> slots[7].key == consumed[0])
      && (!v.Route? && !v.RouteWithTokenLedger? ==>
            slots[n - 6].key == s.sourceMint && slots[n - 5].key == s.destinationMint && slots[n - 4].key == s.jupiter
            && slots[n - 3].key
               == (if TOKEN_2022 in {s.sourceTokenProgram, s.destinationTokenProgram} then TOKEN_2022 else s.jupiter))
      && (v.ExactOutRoute? ==> slots[4].key == s.jupiter)
  {
  }

  /** A token ledger is Jupiter's, and is about the account that the vault pays from; a shared route names three accounts. */
  lemma RemainingAccepted(v: SwapVariant, s: SwapAccounts, remaining: seq<Account>)
    ensures CheckRemaining(v, s, remaining).Ok? <==>
            (v.RouteWithTokenLedger? ==>
               remaining != [] && remaining[0].owner == s.jupiter && remaining[0].ledgerOf == Some(s.source))
            && (v.SharedAccountsRoute? || v.SharedAccountsExactOutRoute? ==> 3 <= |remaining|)
  {
  }

  /**
   What is handed to the call: accounts of the program's own, as many as the variant has, and then every remaining
   account in its place, except that the token ledger is among the first ones already.
   */
  lemma RemainingAreHanded(v: SwapVariant, s: SwapAccounts, remaining: seq<Account>)
    requires Consumed(v) <= |remaining|
    ensures var handed := Handed(v, s, remaining);
      var own := match v case Route => 8 case RouteWithTokenLedger => 8 case ExactOutRoute => 9 case _ => 12;
      |handed| == own + |remaining|
      && (forall i :: (if v.RouteWithTokenLedger? then 1 else 0) <= i < |remaining| ==>
                        handed[own + i] == remaining[i].meta.key)
      && (v.RouteWithTokenLedger? ==> handed[6] == remaining[0].meta.key)
  {
    var from := InfosFrom(v);
    assert forall i :: from <= i < |remaining| ==> KeysOf(MetasOf(remaining[from..]))[i - from] == remaining[i].meta.key;
  }

  // The program's side, with the vectors extended in place

  method BuildAccountLists(v: SwapVariant, s: SwapAccounts, remaining: seq<Account>) returns (r: Result<AccountLists>)
    ensures match CheckRemaining(v, s, remaining)
      case Err(e) => r == Err(e)
      case Ok(_) =>
        Consumed(v) <= |remaining|
        && r == Ok(AccountLists(Handed(v, s, remaining), Rebuilt(v, s, remaining)))
  {
    var _ :- CheckRemaining(v, s, remaining);
    var consumed := KeysOf(MetasOf(remaining[..Consumed(v)]));
    var infos := FirstInfos(v, s, consumed);
    var i := InfosFrom(v);
    assert remaining[i..i] == [];
    while i < |remaining|
      invariant InfosFrom(v) <= i <= |remaining|
      invariant infos == FirstInfos(v, s, consumed) + KeysOf(MetasOf(remaining[InfosFrom(v)..i]))
    {
      OneMoreAccount(remaining, InfosFrom(v), i);
      infos := infos + [remaining[i].meta.key];
      i := i + 1;
    }
    assert remaining[InfosFrom(v)..i] == remaining[InfosFrom(v)..];

    var metas := FixedSlots(v, s, consumed);
    i := Consumed(v);
    assert remaining[i..i] == [];
    while i < |remaining|
      invariant Consumed(v) <= i <= |remaining|
      invariant metas == FixedSlots(v, s, consumed) + MetasOf(remaining[Consumed(v)..i])
    {
      OneMoreAccount(remaining, Consumed(v), i);
      metas := metas + [remaining[i].meta];
      i := i + 1;
    }
    assert remaining[Consumed(v)..i] == remaining[Consumed(v)..];
    r := Ok(AccountLists(infos, metas));
  }

  // The client's side

  /** Picks the remaining accounts out of Jupiter's list. An entry that the list does not have comes out as `None`. */
  function ExtractRemaining(data: seq<byte>, keys: seq<Meta>): Result<seq<Option<Meta>>> {
    if Route.Discriminator() <= data then Ok(Slice(keys, 9))
    else if ExactOutRoute.Discriminator() <= data then Ok(Slice(keys, 11))
    else if SharedAccountsRoute.Discriminator() <= data || SharedAccountsExactOutRoute.Discriminator() <= data then
      Ok([At(keys, 1), At(keys, 4), At(keys, 5)] + Slice(keys, 13))
    else Err(InvalidInstructionData)
  }

  function At(keys: seq<Meta>, i: nat): Option<Meta> {
    if i < |keys| then Some(keys[i]) else None
  }

  /** A slice from `start`, empty if the list is shorter. */
  function Slice(keys: seq<Meta>, start: nat): seq<Option<Meta>> {
    Present(if start <= |keys| then keys[start..] else [])
  }

  function Present(metas: seq<Meta>): seq<Option<Meta>> {
    seq(|metas|, i requires 0 <= i < |metas| => Some(metas[i]))
  }

  /** The client supports exactly the variants that do not use a token ledger. */
  lemma ClientSupports(data: seq<byte>, keys: seq<Meta>)
    ensures ExtractRemaining(data, keys).Ok? <==> FromSwapData(data).Ok? && !FromSwapData(data).value.UsesTokenLedger()
  {
    assert forall v: SwapVariant :: v.Discriminator() <= data ==> data[0] == v.Discriminator()[0];
  }

  // Inverse in one direction: from Jupiter's list and back

  /** The entries of Jupiter's list whose accounts the program takes from the remaining ones. */
  function Picked(v: SwapVariant, keys: seq<Meta>): (picked: seq<Meta>)
    requires !v.UsesTokenLedger() && FixedLen(v) <= |keys|
    ensures |picked| == Consumed(v)
  {
    if Consumed(v) == 3 then [keys[1], keys[4], keys[5]] else []
  }

  /** The fixed slots hold what the program expects; those for picked accounts hold any keys. */
  predicate SlotsMatch(v: SwapVariant, s: SwapAccounts, keys: seq<Meta>)
    requires !v.UsesTokenLedger()
  {
    FixedLen(v) <= |keys| && keys[..FixedLen(v)] == FixedSlots(v, s, KeysOf(Picked(v, keys)))
  }

  /** The same of the keys alone. */
  predicate SlotKeysMatch(v: SwapVariant, s: SwapAccounts, keys: seq<Meta>)
    requires !v.UsesTokenLedger()
  {
    FixedLen(v) <= |keys| && KeysOf(keys[..FixedLen(v)]) == KeysOf(FixedSlots(v, s, KeysOf(Picked(v, keys))))
  }

  /** The remaining accounts have the extracted keys, whatever became of their flags on the way. */
  predicate SameKeys(extracted: seq<Option<Meta>>, remaining: seq<Account>) {
    |extracted| == |remaining|
    && forall i :: 0 <= i < |extracted| ==> extracted[i].Some? && extracted[i].value.key == remaining[i].meta.key
  }

  lemma OnlyVariant(v: SwapVariant, data: seq<byte>)
    requires v.Discriminator() <= data
    ensures forall w: SwapVariant :: w.Discriminator() <= data ==> w == v
  {
    VariantIsItsDiscriminator(data, v);
    forall w: SwapVariant | w.Discriminator() <= data ensures w == v {
      VariantIsItsDiscriminator(data, w);
    }
  }

  lemma ExtractedFrom(v: SwapVariant, data: seq<byte>, keys: seq<Meta>)
    requires !v.UsesTokenLedger() && v.Discriminator() <= data
    ensures ExtractRemaining(data, keys).Ok? && Consumed(v) <= |ExtractRemaining(data, keys).value|
    ensures FixedLen(v) <= |keys| ==>
              ExtractRemaining(data, keys) == Ok(Present(Picked(v, keys) + keys[FixedLen(v)..]))
  {
    ClientSupports(data, keys);
    OnlyVariant(v, data);
    if FixedLen(v) <= |keys| {
      assert ExtractRemaining(data, keys).value == Present(Picked(v, keys) + keys[FixedLen(v)..]);
    }
  }

  lemma {:induction false} SplitKeys(metas: seq<Meta>, c: nat)
    requires c <= |metas|
    ensures KeysOf(metas) == KeysOf(metas[..c]) + KeysOf(metas[c..])
  {
  }

  /**
   For every variant the client supports and every list of Jupiter's, rebuilding from the extracted accounts
   gives the same keys in the same order, exactly if the fixed slots hold the keys the program expects.
   Signer and writable flags may have changed on the way.
   */
  lemma {:induction false} RebuildInvertsExtract(v: SwapVariant, data: seq<byte>, s: SwapAccounts, keys: seq<Meta>,
                                                 remaining: seq<Account>)
    requires !v.UsesTokenLedger() && v.Discriminator() <= data
    requires ExtractRemaining(data, keys).Ok? && SameKeys(ExtractRemaining(data, keys).value, remaining)
    ensures CheckRemaining(v, s, remaining).Ok? && Consumed(v) <= |remaining|
    ensures KeysOf(Rebuilt(v, s, remaining)) == KeysOf(keys) <==> SlotKeysMatch(v, s, keys)
  {
    ExtractedFrom(v, data, keys);
    var c, n, rebuilt := Consumed(v), FixedLen(v), Rebuilt(v, s, remaining);
    SplitKeys(rebuilt, n);
    assert rebuilt[..n] == FixedSlots(v, s, KeysOf(MetasOf(remaining[..c]))) && rebuilt[n..] == MetasOf(remaining[c..]);
    if n <= |keys| {
      SplitKeys(keys, n);
      RemainingKeys(Picked(v, keys), keys[n..], remaining);
      EqualHalves(KeysOf(rebuilt[..n]), KeysOf(rebuilt[n..]), KeysOf(keys[..n]), KeysOf(keys[n..]));
    } else {
      assert |KeysOf(rebuilt)| >= n > |KeysOf(keys)|;
    }
  }

  lemma {:induction false} EqualHalves(a: seq<Key>, b: seq<Key>, a': seq<Key>, b': seq<Key>)
    requires |a| == |a'| && b == b'
    ensures a + b == a' + b' <==> a == a'
  {
    if a + b == a' + b' {
      assert a == (a + b)[..|a|] == (a' + b')[..|a|] == a';
    }
  }

  lemma {:induction false} RemainingKeys(picked: seq<Meta>, rest: seq<Meta>, remaining: seq<Account>)
    requires SameKeys(Present(picked + rest), remaining)
    ensures |picked| <= |remaining|
    ensures KeysOf(MetasOf(remaining[..|picked|])) == KeysOf(picked)
    ensures KeysOf(MetasOf(remaining[|picked|..])) == KeysOf(rest)
  {
    var both := Present(picked + rest);
    assert forall i :: 0 <= i < |picked| ==> both[i] == Some(picked[i]);
    assert forall i :: 0 <= i < |rest| ==> both[|picked| + i] == Some(rest[i]);
  }

  /** With the flags unchanged the same holds entry for entry. */
  lemma {:induction false} RebuildInvertsEntries(v: SwapVariant, data: seq<byte>, s: SwapAccounts, keys: seq<Meta>,
                                                 remaining: seq<Account>)
    requires !v.UsesTokenLedger() && v.Discriminator() <= data
    requires ExtractRemaining(data, keys) == Ok(Present(MetasOf(remaining)))
    ensures CheckRemaining(v, s, remaining).Ok? && Consumed(v) <= |remaining|
    ensures Rebuilt(v, s, remaining) == keys <==> SlotsMatch(v, s, keys)
  {
    ExtractedFrom(v, data, keys);
    var c, n, rebuilt := Consumed(v), FixedLen(v), Rebuilt(v, s, remaining);
    assert |Present(MetasOf(remaining))| == |remaining|;
    if n <= |keys| {
      SamePresent(MetasOf(remaining), Picked(v, keys) + keys[n..]);
      SplitAccounts(remaining, c);
      assert MetasOf(remaining)[..c] == Picked(v, keys) && MetasOf(remaining)[c..] == keys[n..];
      assert rebuilt[..n] == FixedSlots(v, s, KeysOf(Picked(v, keys))) && rebuilt[n..] == keys[n..];
      assert keys == keys[..n] + keys[n..];
    }
  }

  lemma {:induction false} SamePresent(metas: seq<Meta>, metas': seq<Meta>)
    requires Present(metas) == Present(metas')
    ensures metas == metas'
  {
    assert |Present(metas)| == |metas| && |Present(metas')| == |metas'|;
    forall i | 0 <= i < |metas| ensures metas[i] == metas'[i] {
      assert Present(metas)[i] == Present(metas')[i];
    }
  }

  /** And back: extracting from what the program built gives the remaining accounts it was given, key for key. */
  lemma {:induction false} ExtractInvertsRebuild(v: SwapVariant, data: seq<byte>, s: SwapAccounts, remaining: seq<Account>)
    requires !v.UsesTokenLedger() && v.Discriminator() <= data && CheckRemaining(v, s, remaining).Ok?
    ensures Consumed(v) <= |remaining|
    ensures var extracted := ExtractRemaining(data, Rebuilt(v, s, remaining));
      extracted.Ok? && SameKeys(extracted.value, remaining)
  {
    var keys := Rebuilt(v, s, remaining);
    ExtractedFrom(v, data, keys);
    PickedAreConsumed(v, s, remaining);
    var c, n := Consumed(v), FixedLen(v);
    assert keys[n..] == MetasOf(remaining[c..]);
    RestPresent(Picked(v, keys), keys[n..], remaining);
  }

  /** The entries picked out of a rebuilt list name the accounts consumed by it. */
  lemma {:induction false} PickedAreConsumed(v: SwapVariant, s: SwapAccounts, remaining: seq<Account>)
    requires !v.UsesTokenLedger() && Consumed(v) <= |remaining|
    ensures var picked := Picked(v, Rebuilt(v, s, remaining));
      forall i :: 0 <= i < Consumed(v) ==> picked[i].key == remaining[i].meta.key
  {
    var consumed := KeysOf(MetasOf(remaining[..Consumed(v)]));
    assert forall i :: 0 <= i < Consumed(v) ==> consumed[i] == remaining[i].meta.key;
  }

  lemma {:induction false} RestPresent(picked: seq<Meta>, rest: seq<Meta>, remaining: seq<Account>)
    requires |picked| <= |remaining| && rest == MetasOf(remaining[|picked|..])
    requires forall i :: 0 <= i < |picked| ==> picked[i].key == remaining[i].meta.key
    ensures SameKeys(Present(picked + rest), remaining)
  {
    assert forall i :: 0 <= i < |rest| ==> rest[i] == remaining[|picked| + i].meta;
  }

  // Every named account is handed over

  /** The call can only name accounts it was handed. It does, exactly if the SPL Token program is among them. */
  lemma {:induction false} InfosCoverMetas(v: SwapVariant, s: SwapAccounts, remaining: seq<Account>)
    requires CheckRemaining(v, s, remaining).Ok?
    ensures Consumed(v) <= |remaining|
    ensures (forall key :: key in KeysOf(Rebuilt(v, s, remaining)) ==> key in Handed(v, s, remaining))
            <==> SPL_TOKEN in Handed(v, s, remaining)
  {
    var metas, infos := Rebuilt(v, s, remaining), Handed(v, s, remaining);
    assert KeysOf(metas)[0] == SPL_TOKEN;
    if SPL_TOKEN in infos {
      forall i | 0 <= i < |metas| ensures metas[i].key in infos {
        NamedIsHanded(v, s, remaining, i);
      }
    }
  }

  lemma {:induction false} NamedIsHanded(v: SwapVariant, s: SwapAccounts, remaining: seq<Account>, i: nat)
    requires Consumed(v) <= |remaining| && i < |Rebuilt(v, s, remaining)|
    ensures var key := Rebuilt(v, s, remaining)[i].key;
      key == SPL_TOKEN || key in Handed(v, s, remaining)
  {
    var c, n := Consumed(v), FixedLen(v);
    if n <= i {
      var rest := KeysOf(MetasOf(remaining[InfosFrom(v)..]));
      assert Rebuilt(v, s, remaining)[i].key == rest[i - n + c - InfosFrom(v)];
    } else {
      FixedIsHanded(v, s, KeysOf(MetasOf(remaining[..c])), i);
    }
  }

  lemma FixedIsHanded(v: SwapVariant, s: SwapAccounts, consumed: seq<Key>, i: nat)
    requires |consumed| == Consumed(v) && i < FixedLen(v)
    ensures var key := FixedSlots(v, s, consumed)[i].key;
      key == SPL_TOKEN || key in FirstInfos(v, s, consumed)
  {
    var infos := FirstInfos(v, s, consumed);
    assert infos[0] == s.sourceTokenProgram && infos[1] == s.destinationTokenProgram;
    assert infos[|infos| - 1] == s.jupiter && infos[|infos| - 2] == s.eventAuthority;
    if Consumed(v) == 3 {
      assert infos[2] == consumed[0] && infos[3] == s.authority && infos[4] == s.source && infos[5] == consumed[1]
             && infos[6] == consumed[2] && infos[7] == s.destination && infos[8] == s.sourceMint
             && infos[9] == s.destinationMint;
    } else {
      assert infos[2] == s.authority && infos[3] == s.source && infos[4] == s.destination;
      assert v.Route? ==> infos[5] == s.destinationMint;
      assert v.RouteWithTokenLedger? ==> infos[5] == s.destinationMint && infos[6] == consumed[0];
      assert v.ExactOutRoute? ==> infos[5] == s.sourceMint && infos[6] == s.destinationMint;
    }
  }
}
