/** Idempotency keys of the ledger: who builds them, and why no two business
    operations ever share one (v3/internal/platform/wallet.go, commerce.go). */
module Keys {
  import opened Text

  predicate IsUuidText(s: string) {
    |s| == 36 && forall i :: 0 <= i < 36 ==> s[i] == '-' || '0' <= s[i] <= '9' || 'a' <= s[i] <= 'f'
  }

  /** A row id in its canonical text form. */
  type Uuid = s: string | IsUuidText(s)
    witness "00000000-0000-4000-8000-000000000000"

  predicate ProviderChar(c: char) {
    'a' <= c <= 'z' || '0' <= c <= '9' || c == '_' || c == '.' || c == '-'
  }

  /** ^[a-z][a-z0-9_.-]{1,39}$ */
  predicate IsProvider(s: string) {
    2 <= |s| <= 40 && 'a' <= s[0] <= 'z' && forall i :: 0 <= i < |s| ==> ProviderChar(s[i])
  }

  /** A caller-supplied key or external order id after trimming. */
  predicate IsClientKey(s: string) {
    IsTrimmed(s) && s != "" && ByteLen(s) <= 160
  }

  datatype Key =
    | Payment(provider: string, external: string)
    | Refunding(order: Uuid, key: string)
    | Adjustment(account: Uuid, key: string)
    | Purchase(account: Uuid, key: string)
  {
    predicate Valid() {
      match this
      case Payment(provider, external) => IsProvider(provider) && IsClientKey(external)
      case Refunding(_, key) => IsClientKey(key)
      case Adjustment(_, key) => IsClientKey(key)
      case Purchase(_, key) => IsClientKey(key)
    }

    function Prefix(): string {
      match this
      case Payment(_, _) => "payment:"
      case Refunding(_, _) => "refund:"
      case Adjustment(_, _) => "adjust:"
      case Purchase(_, _) => "membership-purchase:"
    }

    function Scope(): string {
      match this
      case Payment(provider, _) => provider
      case Refunding(order, _) => order
      case Adjustment(account, _) => account
      case Purchase(account, _) => account
    }

    function Client(): string {
      match this
      case Payment(_, external) => external
      case Refunding(_, key) => key
      case Adjustment(_, key) => key
      case Purchase(_, key) => key
    }

    /** The text stored in ledger_transactions.idempotency_key. */
    function Render(): string {
      Prefix() + (Scope() + (":" + Client()))
    }
  }

  lemma ScopeHasNoColon(k: Key)
    requires k.Valid()
    ensures forall i :: 0 <= i < |k.Scope()| ==> k.Scope()[i] != ':' && k.Scope()[i] < '\U{80}'
    ensures 2 <= |k.Scope()| <= 40 && (!k.Payment? ==> |k.Scope()| == 36)
  {
  }

  lemma PrefixDecides(a: Key, b: Key)
    requires a.Render() == b.Render()
    ensures a.Prefix() == b.Prefix()
  {
    assert a.Render()[0] == a.Prefix()[0] && b.Render()[0] == b.Prefix()[0];
  }

  /** Text before the first colon determines the two halves. */
  lemma SplitAtColon(s: string, t: string, u: string, v: string)
    requires s + (":" + t) == u + (":" + v)
    requires forall i :: 0 <= i < |s| ==> s[i] != ':'
    requires forall i :: 0 <= i < |u| ==> u[i] != ':'
    ensures s == u && t == v
  {
    var w := s + (":" + t);
    assert w[|s|] == ':' && forall i :: 0 <= i < |s| ==> w[i] != ':';
    assert w[|u|] == ':' && forall i :: 0 <= i < |u| ==> w[i] != ':' by { assert w == u + (":" + v); }
    assert w[..|s|] == s && w[..|u|] == u;
    assert w[|s| + 1..] == t && w[|u| + 1..] == v;
  }

  /** The four key builders are jointly injective on validated input. */
  lemma RenderInjective(a: Key, b: Key)
    requires a.Valid() && b.Valid()
    ensures a.Render() == b.Render() <==> a == b
  {
    if a.Render() == b.Render() {
      PrefixDecides(a, b);
      var n := |a.Prefix()|;
      assert a.Render()[n..] == a.Scope() + (":" + a.Client());
      assert b.Render()[n..] == b.Scope() + (":" + b.Client());
      ScopeHasNoColon(a);
      ScopeHasNoColon(b);
      SplitAtColon(a.Scope(), a.Client(), b.Scope(), b.Client());
    }
  }

  lemma PrefixShape(k: Key)
    ensures IsAscii(k.Prefix()) && 0 < |k.Prefix()| <= 20 && (k.Payment? ==> |k.Prefix()| == 8)
    ensures !IsSpace(k.Prefix()[0])
  {
  }

  lemma RenderLength(p: string, s: string, c: string)
    requires IsAscii(p) && IsAscii(s)
    ensures ByteLen(p + (s + (":" + c))) == |p| + |s| + 1 + ByteLen(c)
  {
    ByteLenAscii(p);
    ByteLenAscii(s);
    ByteLenConcat(p, s + (":" + c));
    ByteLenConcat(s, ":" + c);
    assert (":" + c)[1..] == c;
  }

  /** A validated key survives the ledger's own trimming and length limit. */
  lemma RenderFits(k: Key)
    requires k.Valid()
    ensures TrimSpace(k.Render()) == k.Render() != "" && ByteLen(k.Render()) <= 255
  {
    PrefixShape(k);
    ScopeHasNoColon(k);
    RenderLength(k.Prefix(), k.Scope(), k.Client());
    var r := k.Render();
    assert r[0] == k.Prefix()[0] && r[|r| - 1] == k.Client()[|k.Client()| - 1];
    TrimmedIsFixed(r);
  }
}
