/** The two resources the site manages, as the API returns them. Optional
    image paths are strings where "" stands for a missing value, because every
    view tests them for JavaScript truthiness. */
module Records {
  import opened Common

  /** The moderation state of a testimonial. */
  datatype Status = Pending | Approved | Rejected

  datatype Testimonial = Testimonial(
    id: string,
    name: string,
    position: string,
    company: string,
    industry: string,
    text: string,
    rating: int,
    image: string,
    status: Status)

  datatype Blog = Blog(
    id: string,
    slug: string,
    title: string,
    excerpt: string,
    content: string,
    author: string,
    category: string,
    tags: Option<seq<string>>,
    image: string,
    createdAt: string)
}
