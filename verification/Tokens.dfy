/** The SPL token operations the pool program invokes, over one ledger of all token accounts. */
module Tokens {
  import opened Wrappers
  import opened Numbers
  import opened Bytes

  /** A token account is either the associated account of an owner or an account with a key of its own.
      The constructor `Associated` plays the part of `get_associated_token_address`: it is injective. */
  datatype TokenAccount =
    | Associated(owner: Pubkey, mint: Pubkey)
    | Plain(id: Pubkey, mint: Pubkey)

  type Ledger = map<TokenAccount, u64>

  function Transfer(l: Ledger, from: TokenAccount, to: TokenAccount, amount: u64): Result<Ledger> {
    if from !in l || to !in l then Err(InvalidAccountData)
    else if l[from] < amount then Err(InsufficientFunds)
    else if from.mint != to.mint then Err(MintMismatch)
    else if from == to then Ok(l)
    else if l[to] + amount >= TWO_64 then Err(Overflow)
    else Ok(l[from := l[from] - amount][to := l[to] + amount])
  }

  /** When a transfer goes through; from an account to itself it changes nothing. */
  lemma TransferSucceedsIff(l: Ledger, from: TokenAccount, to: TokenAccount, amount: u64)
    ensures Transfer(l, from, to, amount).Ok?
       <==> && from in l && to in l && from.mint == to.mint && amount <= l[from]
            && (from == to || l[to] + amount < TWO_64)
    ensures from == to && Transfer(l, from, to, amount).Ok? ==> Transfer(l, from, to, amount) == Ok(l)
  {
  }

  /** A mint's supply together with the ledger that holds its tokens. */
  datatype Supply = Supply(total: u64, ledger: Ledger)

  function MintTo(s: Supply, mint: Pubkey, to: TokenAccount, amount: u64): Result<Supply> {
    if to !in s.ledger then Err(InvalidAccountData)
    else if to.mint != mint then Err(MintMismatch)
    else if s.ledger[to] + amount >= TWO_64 || s.total + amount >= TWO_64 then Err(Overflow)
    else Ok(Supply(s.total + amount, s.ledger[to := s.ledger[to] + amount]))
  }

  function Burn(s: Supply, mint: Pubkey, from: TokenAccount, amount: u64): Result<Supply> {
    if from !in s.ledger then Err(InvalidAccountData)
    else if from.mint != mint then Err(MintMismatch)
    else if s.ledger[from] < amount then Err(InsufficientFunds)
    else if s.total < amount then Err(Overflow)
    else Ok(Supply(s.total - amount, s.ledger[from := s.ledger[from] - amount]))
  }

  // ----- Totals -----

  ghost function Pick(l: Ledger): TokenAccount
    requires l != map[]
    ensures Pick(l) in l
  {
    assert l.Keys != {};
    var a :| a in l; a
  }

  ghost function Sum(l: Ledger): nat {
    if l == map[] then 0 else l[Pick(l)] + Sum(l - {Pick(l)})
  }

  /** The sum does not depend on the order in which the accounts are picked. */
  lemma {:induction false} SumRemove(l: Ledger, a: TokenAccount)
    requires a in l
    ensures Sum(l) == l[a] + Sum(l - {a})
    decreases |l|
  {
    var b := Pick(l);
    if a != b {
      SumRemove(l - {b}, a);
      SumRemove(l - {a}, b);
      assert (l - {b}) - {a} == (l - {a}) - {b};
    }
  }

  ghost function OfMint(l: Ledger, mint: Pubkey): Ledger {
    map a | a in l && a.mint == mint :: l[a]
  }

  /** All tokens of one mint, over every account. */
  ghost function Total(l: Ledger, mint: Pubkey): nat {
    Sum(OfMint(l, mint))
  }

  lemma TotalUpdate(l: Ledger, a: TokenAccount, v: u64, mint: Pubkey)
    requires a in l
    ensures Total(l[a := v], mint) == if a.mint == mint then Total(l, mint) - l[a] + v else Total(l, mint)
  {
    var m, m' := OfMint(l, mint), OfMint(l[a := v], mint);
    if a.mint == mint {
      SumRemove(m, a);
      SumRemove(m', a);
      assert m - {a} == m' - {a};
    } else {
      assert m == m';
    }
  }

  /** A transfer keeps the total of every mint, whatever accounts it names. */
  lemma TransferConserves(l: Ledger, from: TokenAccount, to: TokenAccount, amount: u64, mint: Pubkey)
    requires Transfer(l, from, to, amount).Ok?
    ensures Total(Transfer(l, from, to, amount).value, mint) == Total(l, mint)
  {
    if from != to {
      TotalUpdate(l, from, l[from] - amount, mint);
      TotalUpdate(l[from := l[from] - amount], to, l[to] + amount, mint);
    }
  }

  /** An opened account starts empty. */
  lemma OpenConserves(l: Ledger, a: TokenAccount, mint: Pubkey)
    requires a !in l
    ensures Total(l[a := 0], mint) == Total(l, mint)
  {
    var m, m' := OfMint(l, mint), OfMint(l[a := 0], mint);
    if a.mint == mint {
      SumRemove(m', a);
      assert m' - {a} == m;
    } else {
      assert m == m';
    }
  }

  /** The supply equals the tokens held. */
  ghost predicate Backed(s: Supply, mint: Pubkey) {
    s.total == Total(s.ledger, mint)
  }

  lemma MintToKeepsBacking(s: Supply, mint: Pubkey, to: TokenAccount, amount: u64, other: Pubkey)
    requires MintTo(s, mint, to, amount).Ok?
    ensures var s' := MintTo(s, mint, to, amount).value;
            && s'.total == s.total + amount
            && (Backed(s, mint) ==> Backed(s', mint))
            && (other != mint ==> Total(s'.ledger, other) == Total(s.ledger, other))
  {
    TotalUpdate(s.ledger, to, s.ledger[to] + amount, mint);
    TotalUpdate(s.ledger, to, s.ledger[to] + amount, other);
  }

  lemma BurnKeepsBacking(s: Supply, mint: Pubkey, from: TokenAccount, amount: u64, other: Pubkey)
    requires Burn(s, mint, from, amount).Ok?
    ensures var s' := Burn(s, mint, from, amount).value;
            && s'.total == s.total - amount
            && (Backed(s, mint) ==> Backed(s', mint))
            && (other != mint ==> Total(s'.ledger, other) == Total(s.ledger, other))
  {
    TotalUpdate(s.ledger, from, s.ledger[from] - amount, mint);
    TotalUpdate(s.ledger, from, s.ledger[from] - amount, other);
  }

  /** No account holds more than its mint's total. */
  lemma BalanceAtMostTotal(l: Ledger, a: TokenAccount)
    requires a in l
    ensures l[a] <= Total(l, a.mint)
  {
    SumRemove(OfMint(l, a.mint), a);
  }
}
