/** The entry store: the entries, and how the entries file is turned into them
    and back. An absent file is an uninitialized store, a zero-length file an
    empty one, anything else an age container of the serialized entry table. */
module Entries {
  import opened Errors
  import opened Utilities

  datatype Entry = Entry(password: string, username: Option<string>, url: Option<string>)

  /** The whole store: entry names (unique, case-sensitive) to entries. */
  datatype Storage = Storage(entries: map<string, Entry>)

  const EmptyStorage := Storage(map[])

  /** The TOML codec, left abstract: `serialize` is None when the table cannot
      be written out, `fromUtf8` None for bytes that are not UTF-8, `parse` None
      for text that is not a well-formed entry table. */
  datatype Format = Format(
    serialize: Storage -> Option<Bytes>,
    fromUtf8: Bytes -> Option<string>,
    parse: string -> Option<Storage>)

  /** What the model assumes of the codec: what it serializes is UTF-8 text that
      parses back to the same table. */
  ghost predicate FormatRoundTrips(f: Format)
  {
    forall s: Storage {:trigger f.serialize(s)} :: f.serialize(s).Some? ==>
      f.fromUtf8(f.serialize(s).value).Some? && f.parse(f.fromUtf8(f.serialize(s).value).value) == Some(s)
  }

  /** The store held in the entries file, given its contents (None when the file
      does not exist). */
  function Decode(contents: Option<Bytes>, passphrase: string, cipher: Cipher, format: Format): (r: Result<Storage>)
    ensures r == Err(NotInitialized) <==> contents.None?
    ensures contents == Some([]) ==> r == Ok(EmptyStorage)
    ensures r == Err(DecryptFailed) <==>
      contents.Some? && contents.value != [] && cipher.decrypt(contents.value, passphrase).None?
    ensures r.Ok? && contents.value != [] ==>
      var plain := cipher.decrypt(contents.value, passphrase);
      plain.Some? && format.fromUtf8(plain.value).Some? && format.parse(format.fromUtf8(plain.value).value) == Some(r.value)
    ensures r.Err? ==> r.error in {NotInitialized, DecryptFailed, InvalidUtf8, ParseFailed}
    ensures contents.Some? && contents.value != [] && cipher.decrypt(contents.value, passphrase).Some? ==>
      var plain := cipher.decrypt(contents.value, passphrase).value;
      && (r == Err(InvalidUtf8) <==> format.fromUtf8(plain).None?)
      && (format.fromUtf8(plain).Some? ==>
            var text := format.fromUtf8(plain).value;
            && (r == Err(ParseFailed) <==> format.parse(text).None?)
            && (format.parse(text).Some? ==> r == Ok(format.parse(text).value)))
  {
    match contents
    case None => Err(NotInitialized)
    case Some(bytes) =>
      if |bytes| == 0 then Ok(EmptyStorage)
      else
        match cipher.decrypt(bytes, passphrase)
        case None => Err(DecryptFailed)
        case Some(plain) =>
          match format.fromUtf8(plain)
          case None => Err(InvalidUtf8)
          case Some(text) =>
            match format.parse(text)
            case None => Err(ParseFailed)
            case Some(s) => Ok(s)
  }

  /** What saving writes into the entries file: the serialized table,
      encrypted with the passphrase. */
  function Encode(storage: Storage, passphrase: string, cipher: Cipher, format: Format): (r: Result<Bytes>)
    ensures r.Ok? <==> format.serialize(storage).Some? && cipher.encrypt(format.serialize(storage).value, passphrase).Some?
    ensures r.Ok? ==> r.value == cipher.encrypt(format.serialize(storage).value, passphrase).value
    ensures r.Err? ==> r.error == (if format.serialize(storage).None? then SerializeFailed else EncryptFailed)
  {
    match format.serialize(storage)
    case None => Err(SerializeFailed)
    case Some(bytes) =>
      match cipher.encrypt(bytes, passphrase)
      case None => Err(EncryptFailed)
      case Some(sealed) => Ok(sealed)
  }

  /** Loading what was saved, with the same passphrase, gives back the same
      entries: the container is never the zero-length sentinel, and decrypting
      and parsing undo encrypting and serializing. */
  lemma LoadAfterSave(storage: Storage, passphrase: string, cipher: Cipher, format: Format)
    requires CipherRoundTrips(cipher) && FormatRoundTrips(format)
    requires Encode(storage, passphrase, cipher, format).Ok?
    ensures Decode(Some(Encode(storage, passphrase, cipher, format).value), passphrase, cipher, format) == Ok(storage)
  {
    var text := format.serialize(storage).value;
    assert cipher.encrypt(text, passphrase).Some?;
  }

  /** A saved store does not open with a different passphrase. */
  lemma LoadWithOtherPassphrase(storage: Storage, passphrase: string, other: string, cipher: Cipher, format: Format)
    requires CipherRoundTrips(cipher) && CipherAuthenticates(cipher)
    requires Encode(storage, passphrase, cipher, format).Ok? && other != passphrase
    ensures Decode(Some(Encode(storage, passphrase, cipher, format).value), other, cipher, format) == Err(DecryptFailed)
  {
    var text := format.serialize(storage).value;
    assert cipher.encrypt(text, passphrase).Some?;
    assert cipher.decrypt(cipher.encrypt(text, passphrase).value, other).None?;
  }

  /** The zero-length file is the empty store whatever the passphrase, cipher
      and codec: decryption is never consulted for it. */
  lemma EmptyFileNeedsNoCipher(p1: string, p2: string, c1: Cipher, c2: Cipher, f1: Format, f2: Format)
    ensures Decode(Some([]), p1, c1, f1) == Decode(Some([]), p2, c2, f2) == Ok(EmptyStorage)
  {
  }
}
