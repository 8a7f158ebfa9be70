/**
 The token accounts around one vault, and the token-program calls that the handlers make on them. A
 call either moves the exact amount or fails and changes nothing.
 */
module TokenProgram {
  import opened Words
  import opened Tables

  datatype TokenState = TokenState(
    tokens: Table, shares: Table, shareSupply: u64, depositEscrow: nat, shareEscrow: nat, idle: nat)

  class TokenLedger {
    var tokens: Table
    var shares: Table
    var shareSupply: u64
    var depositEscrow: nat
    var shareEscrow: nat
    var idle: nat

    function State(): TokenState
      reads this
    {
      TokenState(tokens, shares, shareSupply, depositEscrow, shareEscrow, idle)
    }

    constructor (s: TokenState)
      ensures State() == s
    {
      tokens, shares, shareSupply := s.tokens, s.shares, s.shareSupply;
      depositEscrow, shareEscrow, idle := s.depositEscrow, s.shareEscrow, s.idle;
    }

    // deposit mint

    method WalletToDepositEscrow(user: Key, amount: u64) returns (r: Result<()>)
      modifies this
      ensures if Balance(old(tokens), user) < amount then r == Err(TokenBalanceTooLow) && State() == old(State())
              else r == Ok(()) && State() == old(State()).(
                     tokens := Debit(old(tokens), user, amount), depositEscrow := old(depositEscrow) + amount)
    {
      if Balance(tokens, user) < amount { return Err(TokenBalanceTooLow); }
      tokens := Debit(tokens, user, amount);
      depositEscrow := depositEscrow + amount;
      return Ok(());
    }

    method DepositEscrowToWallet(user: Key, amount: u64) returns (r: Result<()>)
      modifies this
      ensures if old(depositEscrow) < amount then r == Err(TokenBalanceTooLow) && State() == old(State())
              else r == Ok(()) && State() == old(State()).(
                     tokens := Credit(old(tokens), user, amount), depositEscrow := old(depositEscrow) - amount)
    {
      if depositEscrow < amount { return Err(TokenBalanceTooLow); }
      depositEscrow := depositEscrow - amount;
      tokens := Credit(tokens, user, amount);
      return Ok(());
    }

    method DepositEscrowToIdle(amount: u64) returns (r: Result<()>)
      modifies this
      ensures if old(depositEscrow) < amount then r == Err(TokenBalanceTooLow) && State() == old(State())
              else r == Ok(()) && State() == old(State()).(
                     depositEscrow := old(depositEscrow) - amount, idle := old(idle) + amount)
    {
      if depositEscrow < amount { return Err(TokenBalanceTooLow); }
      depositEscrow := depositEscrow - amount;
      idle := idle + amount;
      return Ok(());
    }

    method IdleToWallet(user: Key, amount: u64) returns (r: Result<()>)
      modifies this
      ensures if old(idle) < amount then r == Err(TokenBalanceTooLow) && State() == old(State())
              else r == Ok(()) && State() == old(State()).(
                     tokens := Credit(old(tokens), user, amount), idle := old(idle) - amount)
    {
      if idle < amount { return Err(TokenBalanceTooLow); }
      idle := idle - amount;
      tokens := Credit(tokens, user, amount);
      return Ok(());
    }

    // share mint

    method WalletToShareEscrow(user: Key, amount: u64) returns (r: Result<()>)
      modifies this
      ensures if Balance(old(shares), user) < amount then r == Err(TokenBalanceTooLow) && State() == old(State())
              else r == Ok(()) && State() == old(State()).(
                     shares := Debit(old(shares), user, amount), shareEscrow := old(shareEscrow) + amount)
    {
      if Balance(shares, user) < amount { return Err(TokenBalanceTooLow); }
      shares := Debit(shares, user, amount);
      shareEscrow := shareEscrow + amount;
      return Ok(());
    }

    method ShareEscrowToWallet(user: Key, amount: u64) returns (r: Result<()>)
      modifies this
      ensures if old(shareEscrow) < amount then r == Err(TokenBalanceTooLow) && State() == old(State())
              else r == Ok(()) && State() == old(State()).(
                     shares := Credit(old(shares), user, amount), shareEscrow := old(shareEscrow) - amount)
    {
      if shareEscrow < amount { return Err(TokenBalanceTooLow); }
      shareEscrow := shareEscrow - amount;
      shares := Credit(shares, user, amount);
      return Ok(());
    }

    method MintShares(user: Key, amount: u64) returns (r: Result<()>)
      modifies this
      ensures if old(shareSupply) + amount > U64_MAX then r == Err(TokenSupplyOverflow) && State() == old(State())
              else r == Ok(()) && State() == old(State()).(
                     shares := Credit(old(shares), user, amount), shareSupply := old(shareSupply) + amount)
    {
      if shareSupply + amount > U64_MAX { return Err(TokenSupplyOverflow); }
      shareSupply := shareSupply + amount;
      shares := Credit(shares, user, amount);
      return Ok(());
    }

    method BurnEscrowed(amount: u64) returns (r: Result<()>)
      modifies this
      ensures if old(shareEscrow) < amount || old(shareSupply) < amount
              then r == Err(TokenBalanceTooLow) && State() == old(State())
              else r == Ok(()) && State() == old(State()).(
                     shareEscrow := old(shareEscrow) - amount, shareSupply := old(shareSupply) - amount)
    {
      if shareEscrow < amount || shareSupply < amount { return Err(TokenBalanceTooLow); }
      shareEscrow := shareEscrow - amount;
      shareSupply := shareSupply - amount;
      return Ok(());
    }

    method BurnHeld(user: Key, amount: u64) returns (r: Result<()>)
      modifies this
      ensures if Balance(old(shares), user) < amount || old(shareSupply) < amount
              then r == Err(TokenBalanceTooLow) && State() == old(State())
              else r == Ok(()) && State() == old(State()).(
                     shares := Debit(old(shares), user, amount), shareSupply := old(shareSupply) - amount)
    {
      if Balance(shares, user) < amount || shareSupply < amount { return Err(TokenBalanceTooLow); }
      shares := Debit(shares, user, amount);
      shareSupply := shareSupply - amount;
      return Ok(());
    }

    method TransferShares(from: Key, to: Key, amount: u64) returns (r: Result<()>)
      modifies this
      ensures if Balance(old(shares), from) < amount then r == Err(TokenBalanceTooLow) && State() == old(State())
              else r == Ok(()) && State() == old(State()).(shares := Credit(Debit(old(shares), from, amount), to, amount))
    {
      if Balance(shares, from) < amount { return Err(TokenBalanceTooLow); }
      shares := Debit(shares, from, amount);
      shares := Credit(shares, to, amount);
      return Ok(());
    }
  }
}
