/** The pieces of backend/serializers.py with logic of their own: dropping
    `None` fields from a parameters representation, the required-field check
    of user registration, and the listed price of a product. */
module Serializers {
  import opened Wrappers
  import opened Catalog
  import opened Passwords

  /** A value in a serialized representation; `Null` is Python's `None`. */
  datatype Value = Null | Bool(b: bool) | Int(i: int) | Str(s: string) | List(items: seq<Value>)

  /** Python truthiness. */
  predicate Truthy(v: Value)
  {
    match v
    case Null => false
    case Bool(b) => b
    case Int(i) => i != 0
    case Str(s) => |s| > 0
    case List(items) => |items| > 0
  }

  type Representation = map<string, Value>

  /** The representation with every `None` field removed. */
  ghost predicate NoNulls(rep: Representation)
  {
    forall k :: k in rep ==> rep[k] != Null
  }

  /** `r` keeps exactly the non-`None` entries of `rep`, values unchanged. */
  ghost predicate StripsNulls(rep: Representation, r: Representation)
  {
    && r.Keys <= rep.Keys
    && NoNulls(r)
    && (forall k :: k in r ==> r[k] == rep[k])
    && (forall k :: k in rep && rep[k] != Null ==> k in r)
  }

  /** The filtered representation as a single expression. */
  function WithoutNulls(rep: Representation): (r: Representation)
    ensures StripsNulls(rep, r)
  {
    map k | k in rep && rep[k] != Null :: rep[k]
  }

  /** `StripsNulls` pins down its result: there is one filtered representation. */
  lemma StripsNullsUnique(rep: Representation, r1: Representation, r2: Representation)
    requires StripsNulls(rep, r1) && StripsNulls(rep, r2)
    ensures r1 == r2
  {
    assert forall k :: k in r1 <==> k in r2;
    assert r1.Keys == r2.Keys;
  }

  /** Filtering an already filtered representation changes nothing. */
  lemma WithoutNullsIdempotent(rep: Representation)
    ensures WithoutNulls(WithoutNulls(rep)) == WithoutNulls(rep)
  {
    StripsNullsUnique(rep, WithoutNulls(WithoutNulls(rep)), WithoutNulls(rep));
  }

  /** `ParametersSerializer.to_representation`: walk the keys and delete each
      one whose value is `None`. */
  method ToRepresentation(representation: Representation) returns (r: Representation)
    ensures StripsNulls(representation, r)
    ensures r == WithoutNulls(representation)
  {
    r := representation;
    var pending := representation.Keys;
    while pending != {}
      invariant pending <= representation.Keys
      invariant r.Keys <= representation.Keys
      invariant forall k :: k in r ==> r[k] == representation[k]
      invariant forall k :: k in pending ==> k in r
      invariant forall k :: k in representation && k !in pending ==> (k in r <==> representation[k] != Null)
      decreases pending
    {
      var field :| field in pending;
      if r[field] == Null {
        r := r - {field};
      }
      pending := pending - {field};
    }
    StripsNullsUnique(representation, r, WithoutNulls(representation));
  }

  /** The errors of `UserSerializer.validate`, in the order they are checked. */
  datatype UserError = UsernameRequired | EmailRequired | PasswordRequired

  /** `data.get(field)` is truthy. */
  predicate Provided(data: Representation, field: string)
  {
    field in data && Truthy(data[field])
  }

  /** `UserSerializer.validate`. */
  function ValidateUser(data: Representation): (r: Result<Representation, UserError>)
    ensures r == Err(UsernameRequired) <==> !Provided(data, "username")
    ensures r == Err(EmailRequired) <==> Provided(data, "username") && !Provided(data, "email")
    ensures r == Err(PasswordRequired) <==>
              Provided(data, "username") && Provided(data, "email") && !Provided(data, "password")
    ensures r.Ok? <==> Provided(data, "username") && Provided(data, "email") && Provided(data, "password")
    ensures r.Ok? ==> r.value == data
  {
    if !Provided(data, "username") then Err(UsernameRequired)
    else if !Provided(data, "email") then Err(EmailRequired)
    else if !Provided(data, "password") then Err(PasswordRequired)
    else Ok(data)
  }

  /** Fields other than the three required ones never affect the verdict. */
  lemma ValidateUserIgnoresOtherFields(data: Representation, field: string, v: Value)
    requires field != "username" && field != "email" && field != "password"
    ensures ValidateUser(data[field := v]).Ok? == ValidateUser(data).Ok?
    ensures ValidateUser(data).Err? ==> ValidateUser(data[field := v]) == ValidateUser(data)
  {
    assert forall f :: f != field ==> (Provided(data[field := v], f) <==> Provided(data, f));
  }

  /** `UserSerializer.validate_password`: runs the password validator and
      hands back the value unchanged when it passes. */
  function ValidatePasswordField(value: string): (r: Result<string, PasswordError>)
    ensures r.Ok? <==> |value| >= MinLength && HasCharIn(value, 'a', 'z') && HasCharIn(value, 'A', 'Z')
                       && HasCharIn(value, '0', '9')
    ensures r.Ok? ==> r.value == value
    ensures r.Err? ==> ValidatePassword(value) == Rejected(r.error)
  {
    match ValidatePassword(value)
    case Accepted => Ok(value)
    case Rejected(e) => Err(e)
  }

  /** `ProductListSerializer.get_price`: the price of the product's first
      `ProductInfo` row, or `None` when it has none. */
  function GetPrice(product: ProductId, infos: seq<ProductInfo>): (r: Option<int>)
    ensures r.None? <==> forall i :: 0 <= i < |infos| ==> infos[i].product != product
    ensures r.Some? ==> exists i :: 0 <= i < |infos| && infos[i].product == product && infos[i].price == r.value
                                  && forall j :: 0 <= j < i ==> infos[j].product != product
  {
    match FirstInfoFor(infos, product)
    case None => None
    case Some(info) => Some(info.price)
  }
}
