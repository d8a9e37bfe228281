/**
 What WakeOpID really hashes (wrap/correlate.go): the string trigger + "/" + persona. Module Correlate
 works with a free id datatype instead; here that idealisation is justified down to the string, under
 stated assumptions about UUIDv5 (section 5.5 of RFC 9562).
*/
module WakeIdentity {
  import opened Correlate

  function Hashed(notifyOpID: string, persona: string): string { notifyOpID + "/" + persona }

  predicate SlashFree(persona: string) { '/' !in persona }

  lemma PersonaFollowsTheLastSlash(id: string, p: string)
    requires SlashFree(p)
    ensures Hashed(id, p)[|id|] == '/'
    ensures forall k | |id| < k < |Hashed(id, p)| :: Hashed(id, p)[k] != '/'
  {
    forall k | |id| < k < |Hashed(id, p)| ensures Hashed(id, p)[k] != '/' {
      assert Hashed(id, p)[k] == p[k - |id| - 1];
    }
  }

  /** The hashed string determines trigger and persona, whatever the trigger id holds. */
  lemma HashedIsInjective(id: string, p: string, id': string, p': string)
    requires SlashFree(p) && SlashFree(p')
    requires Hashed(id, p) == Hashed(id', p')
    ensures id == id' && p == p'
  {
    var s := Hashed(id, p);
    PersonaFollowsTheLastSlash(id, p);
    PersonaFollowsTheLastSlash(id', p');
    assert |id| == |id'|;
    assert s[..|id|] == id && s[..|id'|] == id';
    assert s[|id| + 1..] == p && s[|id'| + 1..] == p';
  }

  /** Only the name grammar makes that true: a persona can be confused with a well-named one, for some
      pair of triggers, exactly when it holds a slash itself. */
  lemma ConfusableIffSlashed(p: string)
    ensures !SlashFree(p) <==>
            exists id: string, id': string, p': string :: SlashFree(p') && Hashed(id, p) == Hashed(id', p') && p != p'
  {
    if SlashFree(p) {
      forall id: string, id': string, p': string | SlashFree(p') && Hashed(id, p) == Hashed(id', p') ensures p == p' {
        HashedIsInjective(id, p, id', p');
      }
    } else {
      var cut, p' := LastSlash(p);
      assert Hashed("", p) == ("/" + cut) + "/" + p' == Hashed("/" + cut, p');
    }
  }

  lemma {:induction false} LastSlash(p: string) returns (cut: string, name: string)
    requires !SlashFree(p)
    ensures p == cut + "/" + name && SlashFree(name) && p != name
  {
    var last := p[|p| - 1];
    assert p == p[..|p| - 1] + [last];
    if last == '/' {
      cut, name := p[..|p| - 1], "";
    } else {
      cut, name := LastSlash(p[..|p| - 1]);
      assert p == cut + "/" + (name + [last]);
      name := name + [last];
    }
  }

  /*** The free ids, written out ***/

  /** The id string on the wire: a client's own UUID, a trigger key, or the derived UUIDv5. */
  function Written(id: OpId, random: nat -> string, uuid5: string -> string): string {
    match id
    case Fresh(n) => random(n)
    case External(key) => key
    case Outcome(trigger, persona) => uuid5(Hashed(Written(trigger, random, uuid5), persona))
  }

  /** No random id repeats, no two names hash alike, and the two UUID versions never meet. */
  ghost predicate CollisionFree(random: nat -> string, uuid5: string -> string) {
    && (forall m, n :: random(m) == random(n) ==> m == n)
    && (forall s, t :: uuid5(s) == uuid5(t) ==> s == t)
    && (forall n, s :: random(n) != uuid5(s))
  }

  /** Slash-free personas all the way down, and a trigger key that is no UUID of a topic op. */
  ghost predicate WellNamed(id: OpId, random: nat -> string, uuid5: string -> string) {
    match id
    case Fresh(n) => true
    case External(key) => (forall n :: random(n) != key) && (forall s :: uuid5(s) != key)
    case Outcome(trigger, persona) => SlashFree(persona) && WellNamed(trigger, random, uuid5)
  }

  /** The free datatype loses nothing: two well-named ids are the same string exactly when they are the
      same id, so every statement about ids in this project is one about the strings on the record. */
  lemma {:induction false} FreeIdsAreFaithful(a: OpId, b: OpId, random: nat -> string, uuid5: string -> string)
    requires CollisionFree(random, uuid5)
    requires WellNamed(a, random, uuid5) && WellNamed(b, random, uuid5)
    ensures Written(a, random, uuid5) == Written(b, random, uuid5) <==> a == b
    decreases a
  {
    if a.Outcome? && b.Outcome? && Written(a, random, uuid5) == Written(b, random, uuid5) {
      HashedIsInjective(Written(a.trigger, random, uuid5), a.persona, Written(b.trigger, random, uuid5), b.persona);
      FreeIdsAreFaithful(a.trigger, b.trigger, random, uuid5);
    }
  }
}
