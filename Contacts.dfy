/**
 * The directory of contacts kept by the shell: the record type, the seed
 * list, and the two updates the AI core may request (append, delete by id).
 */
module Contacts {

  datatype Status = Online | Offline | Busy | Kia

  datatype Clearance = I | II | III | IV | Omega

  datatype Contact = Contact(
    id: string, name: string, role: string, status: Status,
    clearance: Clearance, bio: string, personaPrompt: string)

  /** The contacts a session starts with; the persona prompts are not part of this model. */
  function SeedContacts(): seq<Contact> {
    [
      Contact("dr_kleiner", "Dr. Isaac Kleiner", "异常生物学主管 (Head of Anomalous Biology)", Online, IV, "", ""),
      Contact("director_v", "Director Vance", "区域站点负责人 (Site Director)", Busy, Omega, "", ""),
      Contact("agent_smith", "Field Agent 709", "特遣队队长 (MTF Captain)", Offline, III, "", ""),
      Contact("logistics", "Central Logistics", "物资与补给 (Supply Dept)", Online, II, "", ""),
      Contact("observer", "The Observer (观察者)", "最高议会 (High Council)", Online, Omega, "", "")
    ]
  }

  /**
   * `contacts.filter(c => c.id !== id)`: every contact with that id goes,
   * all others stay in their order.
   */
  function RemoveById(cs: seq<Contact>, id: string): (r: seq<Contact>)
    ensures forall c :: c in r <==> c in cs && c.id != id
    ensures |r| <= |cs|
    ensures (forall c :: c in cs ==> c.id != id) ==> r == cs
  {
    if cs == [] then []
    else if cs[0].id == id then RemoveById(cs[1..], id)
    else
      assert cs == [cs[0]] + cs[1..];
      [cs[0]] + RemoveById(cs[1..], id)
  }

  /** Removal distributes over concatenation. */
  lemma {:induction false} RemoveAppend(a: seq<Contact>, b: seq<Contact>, id: string)
    ensures RemoveById(a + b, id) == RemoveById(a, id) + RemoveById(b, id)
  {
    if a == [] {
      assert a + b == b;
    } else {
      assert (a + b)[1..] == a[1..] + b;
      RemoveAppend(a[1..], b, id);
    }
  }

  /** Deleting a contact that was just added leaves the list as deleting it before. */
  lemma DeleteUndoesAdd(cs: seq<Contact>, c: Contact)
    ensures RemoveById(cs + [c], c.id) == RemoveById(cs, c.id)
  {
    RemoveAppend(cs, [c], c.id);
    assert RemoveById([c], c.id) == [];
  }

  /** Deleting by id twice deletes nothing more. */
  lemma {:induction false} DeleteIdempotent(cs: seq<Contact>, id: string)
    ensures RemoveById(RemoveById(cs, id), id) == RemoveById(cs, id)
  {
    var r := RemoveById(cs, id);
    assert forall c :: c in r ==> c.id != id;
  }

  /** One line of the `comms` listing. */
  function ContactLine(c: Contact): string {
    "[" + c.id + "] " + c.name + " - " + c.role
  }
}
