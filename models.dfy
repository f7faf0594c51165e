/** The two records the shop stores. backend/api/models.py is not part of this
    model: the fields of Sweet are those SweetSerializer exposes, and the
    fields of User are those the registration serializers fill in. */
module Models {

  /** One inventory row. The price is kept in integer cents. */
  datatype Sweet = Sweet(id: int, name: string, category: string, price: int, quantity: int)

  /** A created account. `password` is the raw password the stored hash is
      made from; hashing itself is a library call outside this model. */
  datatype User = User(username: string, email: string, password: string)
}
