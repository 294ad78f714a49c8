/** The contact collection: messages are only ever added. */
module ContactStore {
  import opened Types

  type Contacts = map<Id, Contact>

  /** The message a valid contact submission becomes. */
  function NewContact(f: ContactForm, now: Time): (c: Contact)
    ensures ContactForm(c.name, c.email, c.message) == f
    ensures c.createdAt == now
  {
    Contact(f.name, f.email, f.message, now)
  }

  /** Saving a message under a fresh identifier; nothing stored before changes. */
  function Add(contacts: Contacts, id: Id, f: ContactForm, now: Time): (c': Contacts)
    requires id !in contacts
    ensures c'.Keys == contacts.Keys + {id}
    ensures c'[id] == NewContact(f, now)
    ensures forall k | k in contacts :: c'[k] == contacts[k]
  {
    contacts[id := NewContact(f, now)]
  }
}
