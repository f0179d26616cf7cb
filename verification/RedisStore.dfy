/** The idempotency records and the Redis commands that read and write them. Every command
    runs atomically; Redis forgets a key the moment its deadline is reached. */
module Redis {
  import opened Common
  import opened Http

  datatype State = InFlight | Completed

  datatype Envelope = Envelope(
    state: State,
    hash: string,
    status: int,
    headers: map<string, string>,
    body: Bytes,
    createdAt: int,
    expiresAt: int)

  datatype Entry = Entry(env: Envelope, deadline: int)

  type Db = map<string, Entry>

  /** A time to live in whole milliseconds. */
  type Ttl = t: int | 0 < t witness 1

  const IN_FLIGHT := "IN_FLIGHT"
  const COMPLETED := "COMPLETED"

  predicate Present(db: Db, now: int, key: string) {
    key in db && now < db[key].deadline
  }

  function Reservation(hash: string, now: int, ttl: Ttl): Envelope {
    Envelope(InFlight, hash, 0, map[], [], now, now + ttl)
  }

  function Completion(existing: Envelope, status: int, headers: map<string, string>, body: Bytes, now: int,
                      ttl: Ttl): Envelope {
    Envelope(Completed, existing.hash, status, headers, body, existing.createdAt, now + ttl)
  }

  /** SET key value PX ttl NX. */
  function SetNx(db: Db, now: int, key: string, env: Envelope, ttl: Ttl): Db {
    if Present(db, now, key) then db else db[key := Entry(env, now + ttl)]
  }

  /** GET key. */
  function Get(db: Db, now: int, key: string): Option<Envelope> {
    if Present(db, now, key) then Some(db[key].env) else None
  }

  /** The completion script: overwrite the key with a fresh time to live, if it exists. */
  function SetExisting(db: Db, now: int, key: string, env: Envelope, ttl: Ttl): Db {
    if Present(db, now, key) then db[key := Entry(env, now + ttl)] else db
  }

  /** The release script: delete the key if its text contains the quoted word IN_FLIGHT. */
  function DeleteMarked(db: Db, now: int, key: string): Db {
    if Present(db, now, key) && ScriptFinds(db[key].env) then db - {key} else db
  }

  /** A string whose JSON form ends in the quoted word IN_FLIGHT. */
  predicate Marked(text: string) {
    EndsIn(text, IN_FLIGHT)
  }

  /** The text is the word, or ends in the word with a double quote before it. */
  predicate EndsIn(text: string, word: string) {
    text == word || EndsWith(text, ['"'] + word)
  }

  predicate EndsWith(text: string, suffix: string) {
    |suffix| <= |text| && text[|text| - |suffix|..] == suffix
  }

  /** What the release script's substring test amounts to; ReleaseScript.FindsMarks proves it. */
  predicate ScriptFinds(env: Envelope) {
    env.state.InFlight? || !Benign(env)
  }

  predicate Benign(env: Envelope) {
    !Marked(env.hash) && forall name <- env.headers :: !Marked(name) && !Marked(env.headers[name])
  }

  datatype Reserved = Created | Existing(env: Envelope) | StoreError

  class RedisStore {
    var db: Db
    var now: int
    const ttl: Ttl

    constructor (ttl: Ttl)
      ensures db == map[] && now == 0 && this.ttl == ttl
    {
      this.ttl := ttl;
      db, now := map[], 0;
    }

    /** SETNX, then GET when the key was taken. A record that lapses between the two is
        reported as an error, like a failing command. */
    method Reserve(key: string, hash: string, setFault: Fault, getFault: Fault) returns (r: Reserved)
      modifies this`db
      ensures db == if TakesEffect(setFault) then SetNx(old(db), now, key, Reservation(hash, now, ttl), ttl)
        else old(db)
      ensures r.Created? ==>
        var env := Envelope(InFlight, hash, 0, map[], [], now, now + ttl);
        db == old(db)[key := Entry(env, now + ttl)]
      ensures r.Created? <==> setFault.Clean? && !Present(old(db), now, key)
      ensures r.Existing? <==> setFault.Clean? && getFault.Clean? && Present(old(db), now, key)
      ensures r.Existing? ==> r.env == old(db)[key].env
    {
      var env := Reservation(hash, now, ttl);
      var taken := Present(db, now, key);
      if TakesEffect(setFault) {
        db := SetNx(db, now, key, env, ttl);
      }
      if !setFault.Clean? {
        return StoreError;
      }
      if !taken {
        return Created;
      }
      if !getFault.Clean? {
        return StoreError;
      }
      match Get(db, now, key) {
        case None => return StoreError;
        case Some(existing) => return Existing(existing);
      }
    }

    /** GET, then the completion script. Ownership is not checked again. */
    method Complete(key: string, status: int, headers: map<string, string>, body: Bytes, getFault: Fault,
                    setFault: Fault)
      returns (ok: bool)
      modifies this`db
      ensures db ==
        if getFault.Clean? && Present(old(db), now, key) && TakesEffect(setFault)
        then old(db)[key := Entry(Completion(old(db)[key].env, status, headers, body, now, ttl), now + ttl)]
        else old(db)
      ensures getFault.Clean? && Present(old(db), now, key) && TakesEffect(setFault) ==>
        var existing := old(db)[key].env;
        db[key].env == Envelope(Completed, existing.hash, status, headers, body, existing.createdAt, now + ttl)
      ensures ok <==> getFault.Clean? && (Present(old(db), now, key) ==> setFault.Clean?)
    {
      if !getFault.Clean? {
        return false;
      }
      match Get(db, now, key) {
        case None => return true;
        case Some(existing) =>
          var env := Completion(existing, status, headers, body, now, ttl);
          if TakesEffect(setFault) {
            db := SetExisting(db, now, key, env, ttl);
          }
          return setFault.Clean?;
      }
    }

    method Release(key: string, fault: Fault) returns (ok: bool)
      modifies this`db
      ensures db == if TakesEffect(fault) then DeleteMarked(old(db), now, key) else old(db)
      ensures ok <==> fault.Clean?
    {
      if TakesEffect(fault) {
        db := DeleteMarked(db, now, key);
      }
      return fault.Clean?;
    }
  }
}
