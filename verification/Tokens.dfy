/** Connection tokens and completion user data, src/connection_meta.rs:176-198 and src/proactor/op.rs:17-86. */
module Tokens {
  import opened Bytes
  import opened Bits

  const ID_SPACE := 0x1000_0000
  const CONN_ID_MASK := 0x0FFF_FFFF
  const CONN_GENERATION_MASK := 0x0FFF_FFFF
  const TOKEN_SPACE := 0x100_0000_0000_0000

  lemma SpacesArePowers()
    ensures PowerOfTwo(ID_SPACE) && PowerOfTwo(TOKEN_SPACE)
    ensures ID_SPACE * ID_SPACE == TOKEN_SPACE
  {
    assert PowerOfTwo(0x4000);
    PowerProduct(0x4000, 0x4000);
    PowerProduct(ID_SPACE, ID_SPACE);
  }

  /** (generation << 28) | conn_id. */
  function EncodeConnToken(connId: nat, generation: nat): (token: nat) {
    Or(generation * ID_SPACE, connId)
  }

  function TokenConnId(token: nat): (id: nat) {
    And(token, CONN_ID_MASK)
  }

  function TokenGeneration(token: nat): (g: nat) {
    And(token / ID_SPACE, CONN_GENERATION_MASK)
  }

  /** A token gives back both halves, and fits the 56 bits that user data leaves it. */
  lemma TokenRoundTrip(connId: nat, generation: nat)
    requires connId <= CONN_ID_MASK && generation <= CONN_GENERATION_MASK
    ensures var token := EncodeConnToken(connId, generation);
            && token < TOKEN_SPACE
            && TokenConnId(token) == connId && TokenGeneration(token) == generation
  {
    hide PowerOfTwo, And, Or;
    SpacesArePowers();
    OrDigits(ID_SPACE, generation, connId);
    var token := generation * ID_SPACE + connId;
    AndMask(token, ID_SPACE);
    AndMask(token / ID_SPACE, ID_SPACE);
  }

  /** The slot in the low 28 bits, the generation above it. */
  lemma TokenLayout(connId: nat, generation: nat)
    requires connId < 0x1000_0000
    ensures EncodeConnToken(connId, generation) == generation * 0x1000_0000 + connId
  {
    hide PowerOfTwo, Or;
    SpacesArePowers();
    OrDigits(ID_SPACE, generation, connId);
  }

  /** Tokens of different (slot, generation) pairs are different. */
  lemma TokenInjective(a: nat, g: nat, b: nat, h: nat)
    requires a <= CONN_ID_MASK && b <= CONN_ID_MASK && g <= CONN_GENERATION_MASK && h <= CONN_GENERATION_MASK
    requires EncodeConnToken(a, g) == EncodeConnToken(b, h)
    ensures a == b && g == h
  {
    hide EncodeConnToken;
    TokenRoundTrip(a, g);
    TokenRoundTrip(b, h);
  }

  datatype OpKind = Connect | Recv | Send | Close | Nop {
    function Code(): (v: nat) {
      match this
      case Connect => 1
      case Recv => 2
      case Send => 3
      case Close => 4
      case Nop => 5
    }
  }

  function KindFrom(v: nat): (r: Option<OpKind>)
    ensures forall k: OpKind :: r == Some(k) <==> k.Code() == v
  {
    match v
    case 1 => Some(Connect)
    case 2 => Some(Recv)
    case 3 => Some(Send)
    case 4 => Some(Close)
    case 5 => Some(Nop)
    case _ => None
  }

  /** (kind << 56) | (token & TOKEN_MASK). */
  function UserData(kind: OpKind, token: nat): (raw: nat) {
    Or(kind.Code() * TOKEN_SPACE, And(token, TOKEN_SPACE - 1))
  }

  function UserDataKind(raw: nat): (r: Option<OpKind>) {
    KindFrom((raw / TOKEN_SPACE) % 256)
  }

  function UserDataToken(raw: nat): (token: nat) {
    And(raw, TOKEN_SPACE - 1)
  }

  /** What a submission carries comes back with its completion. */
  lemma UserDataRoundTrip(kind: OpKind, token: nat)
    requires token < TOKEN_SPACE
    ensures UserDataKind(UserData(kind, token)) == Some(kind)
    ensures UserDataToken(UserData(kind, token)) == token
  {
    hide PowerOfTwo, And, Or;
    SpacesArePowers();
    AndMask(token, TOKEN_SPACE);
    OrDigits(TOKEN_SPACE, kind.Code(), token);
    AndMask(kind.Code() * TOKEN_SPACE + token, TOKEN_SPACE);
  }

  /** The kind in the top byte, the token in the 56 bits below it. */
  lemma UserDataLayout(kind: OpKind, token: nat)
    requires token < 0x100_0000_0000_0000
    ensures var code := if kind == Connect then 1 else if kind == Recv then 2 else if kind == Send then 3
                        else if kind == Close then 4 else 5;
            UserData(kind, token) == code * 0x100_0000_0000_0000 + token
  {
    hide PowerOfTwo, And, Or;
    SpacesArePowers();
    AndMask(token, TOKEN_SPACE);
    OrDigits(TOKEN_SPACE, kind.Code(), token);
  }
}
