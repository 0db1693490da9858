/** The simplest promises: one native transfer, one token transfer. */
module Payments {
  import opened Common
  import opened Json
  import opened Request

  /** A promise that transfers `n` yocto to `receiver` and does nothing else. */
  function Pays(receiver: string, n: u128): NearPromise {
    NearPromise(receiver, None, [Transfer(ToDecimal(n))])
  }

  lemma PaysExactly(receiver: string, n: u128)
    ensures PromiseNative(Pays(receiver, n)) == n && !HasCall(Pays(receiver, n))
  {
    hide ToDecimal, ParseU128;
    DecimalRoundTrip(n);
    assert NativeUpTo(Pays(receiver, n).actions, 0) == 0;
  }

  /** One `ft_transfer` of `n` units of `token` to `recipient`, one yocto attached. */
  function PaysToken(token: string, recipient: string, n: u128): NearPromise {
    NearPromise(token, None, [Call(FunctionCall("ft_transfer", FtBytes(recipient, n), ToDecimal(1), "0"))])
  }

  function FtBytes(recipient: string, n: u128): CallArgs {
    Parsed(Obj(Named(FT_READ, [Str(recipient), Str(ToDecimal(n))])))
  }

  lemma FtBytesRead(recipient: string, n: u128)
    ensures ReadFt(FtBytes(recipient, n)) == Some(FtArgs(recipient, ToDecimal(n)))
    ensures UnknownFields(FtBytes(recipient, n), FT_FIELDS) == []
  {
    hide ToDecimal, Named, Lookup, KeysOutside;
    PositionalReadsAlike([Str(recipient), Str(ToDecimal(n))]);
  }

  /** One `nft_transfer` of item `id` of `collection` to `recipient`, one yocto attached. */
  function SendsItem(collection: string, recipient: string, id: string): NearPromise {
    NearPromise(collection, None, [Call(FunctionCall("nft_transfer", NftBytes(recipient, id), ToDecimal(1), "0"))])
  }

  function NftBytes(recipient: string, id: string): CallArgs {
    Parsed(Obj(Named(NFT_READ, [Str(recipient), Str(id)])))
  }

  lemma NftBytesRead(recipient: string, id: string)
    ensures ReadNft(NftBytes(recipient, id)) == Some(NftArgs(recipient, id, false))
    ensures UnknownFields(NftBytes(recipient, id), NFT_FIELDS) == []
  {
    hide Named, Lookup, KeysOutside;
    PositionalReadsAlike([Str(recipient), Str(id)]);
  }

  /** The named spelling of an array's items. */
  function Named(fields: seq<string>, items: seq<Value>): seq<Entry>
    requires |items| <= |fields|
  {
    seq(|items|, k requires 0 <= k < |items| => Entry(fields[k], items[k]))
  }

  predicate Distinct(fields: seq<string>) {
    forall i, j :: 0 <= i < j < |fields| ==> fields[i] != fields[j]
  }

  lemma {:induction false} NamedLookup(fields: seq<string>, items: seq<Value>, key: string)
    requires |items| <= |fields| && Distinct(fields)
    ensures forall i :: 0 <= i < |items| && fields[i] == key ==> Lookup(Named(fields, items), key) == Some(items[i])
    ensures (forall i :: 0 <= i < |items| ==> fields[i] != key) ==>
      Lookup(Named(fields, items), key).None? && Occurrences(Named(fields, items), key) == 0
    ensures Occurrences(Named(fields, items), key) <= 1
  {
    if items != [] {
      var rest := Named(fields[1..], items[1..]);
      NamedLookup(fields[1..], items[1..], key);
      assert Named(fields, items)[1..] == rest;
      assert forall i :: 1 <= i < |items| ==> fields[1..][i - 1] == fields[i] && items[1..][i - 1] == items[i];
    }
  }

  lemma {:induction false} NamedKeysKnown(fields: seq<string>, items: seq<Value>, known: seq<string>)
    requires |items| <= |fields| && forall i :: 0 <= i < |fields| ==> fields[i] in known
    ensures KeysOutside(Named(fields, items), known) == []
  {
    if items != [] {
      assert Named(fields, items)[1..] == Named(fields[1..], items[1..]);
      NamedKeysKnown(fields[1..], items[1..], known);
    }
  }

  /** Both spellings have the same outer shape and the same fields. */
  lemma SpellingsAgree(fields: seq<string>, items: seq<Value>)
    requires |items| <= |fields| && Distinct(fields)
    ensures StructShape(Obj(Named(fields, items)), fields) && StructShape(Arr(items), fields)
    ensures forall i :: 0 <= i < |fields| ==>
      Field(Obj(Named(fields, items)), fields, i) == Field(Arr(items), fields, i)
  {
    hide Lookup, Occurrences, Named;
    forall i | 0 <= i < |fields|
      ensures Occurrences(Named(fields, items), fields[i]) <= 1
      ensures Lookup(Named(fields, items), fields[i]) == if i < |items| then Some(items[i]) else None
    {
      NamedLookup(fields, items, fields[i]);
    }
  }

  lemma ReadFieldsDistinct()
    ensures Distinct(FT_READ) && Distinct(NFT_READ) && Distinct(STORAGE_READ)
    ensures forall i :: 0 <= i < |FT_READ| ==> FT_READ[i] in FT_FIELDS
    ensures forall i :: 0 <= i < |NFT_READ| ==> NFT_READ[i] in NFT_FIELDS
  {
    assert "receiver_id"[0] != "amount"[0] && "receiver_id"[0] != "token_id"[0] && "token_id"[0] != "approval_id"[0]
        && "receiver_id"[0] != "approval_id"[0];
  }

  /** Arguments in the positional array spelling read exactly as the named ones do, whatever
      the items are, and not at all with more items than fields; no bytes read as `{}`. */
  lemma PositionalReadsAlike(items: seq<Value>)
    ensures ReadFt(Parsed(Arr(items)))
         == if |items| <= |FT_READ| then ReadFt(Parsed(Obj(Named(FT_READ, items)))) else None
    ensures ReadNft(Parsed(Arr(items)))
         == if |items| <= |NFT_READ| then ReadNft(Parsed(Obj(Named(NFT_READ, items)))) else None
    ensures ReadStorage(Parsed(Arr(items)))
         == if |items| <= |STORAGE_READ| then ReadStorage(Parsed(Obj(Named(STORAGE_READ, items)))) else None
    ensures |items| <= |FT_READ| ==> UnknownFields(Parsed(Obj(Named(FT_READ, items))), FT_FIELDS) == []
    ensures |items| <= |NFT_READ| ==> UnknownFields(Parsed(Obj(Named(NFT_READ, items))), NFT_FIELDS) == []
    ensures UnknownFields(Parsed(Arr(items)), FT_FIELDS) == UnknownFields(Parsed(Arr(items)), NFT_FIELDS) == []
    ensures ReadStorage(NoBytes) == ReadStorage(Parsed(Obj([])))
  {
    hide Named, Distinct, KeysOutside;
    ReadFieldsDistinct();
    if |items| <= |FT_READ| {
      SpellingsAgree(FT_READ, items);
      NamedKeysKnown(FT_READ, items, FT_FIELDS);
    }
    if |items| <= |NFT_READ| {
      SpellingsAgree(NFT_READ, items);
      NamedKeysKnown(NFT_READ, items, NFT_FIELDS);
    }
    if |items| <= |STORAGE_READ| {
      SpellingsAgree(STORAGE_READ, items);
    }
  }
}
