/** The token creation endpoint (`app/api/create-token/route.ts`): a stateless check of the
    request body that echoes back a pending token. The freshly generated mint key is an
    input. */
module CreateTokenRoute {
  import opened Options
  import opened JsonValue

  const DefaultInitialSupply: Json := JNum(1000000.0)
  const DefaultDecimals: Json := JNum(9.0)
  const PendingStatus: string := "pending_creation"
  const PendingMessage: string :=
    "Token creation requires user signature. Please use the frontend to complete the process."
  const InitiatedMessage: string := "Token creation initiated. Complete the process in the frontend."

  datatype PendingToken = PendingToken(
    mint: string,
    name: Json,
    symbol: Json,
    description: Option<Json>,
    initialSupply: Json,
    decimals: Json,
    walletAddress: Json,
    status: string,
    message: string)

  datatype CreateResponse =
    | Initiated(token: PendingToken, message: string)
    | MissingRequired
    | CreateFailed
  {
    function Status(): int {
      match this
      case Initiated(_, _) => 200
      case MissingRequired => 400
      case CreateFailed => 500
    }
  }

  /** A destructuring default `{ field = d }`: applies only when the property is
      `undefined`; any value present, `0` and `null` included, is kept. */
  function OrDefault(v: Option<Json>, d: Json): (r: Json)
    // a present value is kept, falsy or not
    ensures v.Some? ==> r == v.value
    // the result is the default exactly when the property is absent or already holds it
    ensures r == d <==> v.None? || v.value == d
  {
    if v.Some? then v.value else d
  }

  /** The three required fields are truthy. */
  predicate HasRequired(v: Json) {
    Truthy(Field(v, "name")) && Truthy(Field(v, "symbol")) && Truthy(Field(v, "walletAddress"))
  }

  /** `POST /api/create-token` with `mintKey` the text of the generated public key. */
  function CreateToken(body: Body, mintKey: string): (r: CreateResponse)
    ensures r.CreateFailed? <==> body.Unparseable? || !Destructurable(body.value)
    ensures r.MissingRequired? <==>
              body.Parsed? && Destructurable(body.value) && !HasRequired(body.value)
    ensures r.Initiated? ==>
              var v, t := body.value, r.token;
              && t.mint == mintKey
              && t.name == Field(v, "name").value
              && t.symbol == Field(v, "symbol").value
              && t.walletAddress == Field(v, "walletAddress").value
              && t.description == Field(v, "description")
              && t.status == PendingStatus
              && t.message == PendingMessage
              && r.message == InitiatedMessage
              // defaults fill only absent fields
              && (Field(v, "initialSupply").None? ==> t.initialSupply == DefaultInitialSupply)
              && (Field(v, "initialSupply").Some? ==> t.initialSupply == Field(v, "initialSupply").value)
              && (Field(v, "decimals").None? ==> t.decimals == DefaultDecimals)
              && (Field(v, "decimals").Some? ==> t.decimals == Field(v, "decimals").value)
  {
    if body.Unparseable? || !Destructurable(body.value) then CreateFailed
    else
      var v := body.value;
      var initialSupply := OrDefault(Field(v, "initialSupply"), DefaultInitialSupply);
      var decimals := OrDefault(Field(v, "decimals"), DefaultDecimals);
      if !HasRequired(v) then MissingRequired
      else
        Initiated(
          PendingToken(mintKey, Field(v, "name").value, Field(v, "symbol").value, Field(v, "description"),
                       initialSupply, decimals, Field(v, "walletAddress").value, PendingStatus, PendingMessage),
          InitiatedMessage)
  }

  /** A supplied zero survives the defaulting: `initialSupply: 0` is echoed as 0. */
  lemma ZeroIsKept(fields: map<string, Json>, mintKey: string)
    requires HasRequired(JObj(fields))
    requires "initialSupply" in fields && fields["initialSupply"] == JNum(0.0)
    ensures CreateToken(Parsed(JObj(fields)), mintKey).token.initialSupply == JNum(0.0)
  {
  }
}
