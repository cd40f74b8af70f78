/** The `Order` entity: a client's contact details, a description and the pictures attached. */
module OrderModel {
  import opened Wrappers
  import opened PictureModel

  /** The values of an order's fields at one moment; `null` fields are `None`. */
  datatype OrderRecord = OrderRecord(
    id: Option<int>,
    clientName: Option<string>,
    clientPhone: Option<string>,
    clientEmail: Option<string>,
    description: Option<string>,
    acceptedAt: Option<Instant>,
    completedAt: Option<Instant>,
    pictures: Option<seq<Picture>>)

  /** An order as built by the no-argument constructor: every field `null`. */
  const EmptyOrder := OrderRecord(None, None, None, None, None, None, None, None)

  /** The mutable `Order` entity, whose setters the deserializer and the event handler call. */
  class Order {
    var id: Option<int>
    var clientName: Option<string>
    var clientPhone: Option<string>
    var clientEmail: Option<string>
    var description: Option<string>
    var acceptedAt: Option<Instant>
    var completedAt: Option<Instant>
    var pictures: Option<seq<Picture>>

    /** `new Order()`. */
    constructor ()
      ensures Record() == EmptyOrder
    {
      id, clientName, clientPhone, clientEmail := None, None, None, None;
      description, acceptedAt, completedAt, pictures := None, None, None, None;
    }

    /** `new Order(clientName, clientPhone, clientEmail, description, pictures)`. */
    constructor WithDetails(clientName: Option<string>, clientPhone: Option<string>, clientEmail: Option<string>,
                            description: Option<string>, pictures: Option<seq<Picture>>)
      ensures Record() == OrderRecord(None, clientName, clientPhone, clientEmail, description, None, None, pictures)
    {
      this.id, this.acceptedAt, this.completedAt := None, None, None;
      this.clientName, this.clientPhone, this.clientEmail := clientName, clientPhone, clientEmail;
      this.description, this.pictures := description, pictures;
    }

    /** The current values of the fields. */
    function Record(): OrderRecord
      reads this
    {
      OrderRecord(id, clientName, clientPhone, clientEmail, description, acceptedAt, completedAt, pictures)
    }
  }
}
